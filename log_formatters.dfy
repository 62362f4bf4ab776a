/**
  `ContextualLogFormatter.format` (src/logging/formatters.py): the line the standard formatter
  produced, followed by ` [k=v | ...]` listing the record's contextual attributes. The standard
  formatter's output is the parameter `base`; the record's attributes are its `__dict__` in order.
 */
module LogFormatters {
  import opened Wrappers
  import PyText

  /** An attribute value as `str()` renders it; `PyNone` is Python's None. */
  datatype PyValue = PyNone | PyValue(text: string)

  function Str(v: PyValue): string {
    if v.PyNone? then "None" else v.text
  }

  /** `(name, str(value))`, written `name=value`. */
  type Item = (string, string)

  const StandardFields: seq<string> := ["path", "method", "client_ip", "error_type", "status_code", "process_time"]

  /** The attributes every `LogRecord` carries, never listed. */
  const Builtins: seq<string> := ["name", "msg", "args", "levelname", "levelno", "pathname", "filename",
    "module", "exc_info", "exc_text", "lineno", "funcName", "created", "asctime", "msecs",
    "relativeCreated", "thread", "threadName", "processName", "process", "request_id", "message"]

  ghost predicate DistinctKeys(attrs: seq<(string, PyValue)>) {
    forall i, j :: 0 <= i < j < |attrs| ==> attrs[i].0 != attrs[j].0
  }

  ghost predicate Distinct(s: seq<string>) {
    forall i, j :: 0 <= i < j < |s| ==> s[i] != s[j]
  }

  /** `getattr(record, name)` when `hasattr(record, name)`. */
  function Lookup(attrs: seq<(string, PyValue)>, name: string): (r: Option<PyValue>)
    ensures r.Some? <==> exists i :: 0 <= i < |attrs| && attrs[i].0 == name
    ensures r.Some? ==> (name, r.value) in attrs
  {
    if attrs == [] then None
    else if attrs[0].0 == name then Some(attrs[0].1)
    else
      var r := Lookup(attrs[1..], name);
      assert forall i :: 1 <= i < |attrs| ==> attrs[i] == attrs[1..][i - 1];
      r
  }

  /** The `request_id` item, present whenever the attribute is, even when it is None. */
  function RequestItem(attrs: seq<(string, PyValue)>): seq<Item> {
    var v := Lookup(attrs, "request_id");
    if v.Some? then [("request_id", Str(v.value))] else []
  }

  /** The items of the `fields` that are present and not None, in the order of `fields`. */
  function StandardItems(attrs: seq<(string, PyValue)>, fields: seq<string>): seq<Item> {
    if fields == [] then []
    else
      var field := fields[|fields| - 1];
      var v := Lookup(attrs, field);
      StandardItems(attrs, fields[..|fields| - 1]) + (if v.Some? && !v.value.PyNone? then [(field, Str(v.value))] else [])
  }

  /** Whether the third loop lists an attribute. */
  predicate Listed(attr: (string, PyValue)) {
    attr.0 !in StandardFields && attr.0 !in Builtins && !attr.1.PyNone?
  }

  /** The remaining attributes that are not None, in record order. */
  function OtherItems(attrs: seq<(string, PyValue)>): seq<Item> {
    if attrs == [] then []
    else
      var attr := attrs[|attrs| - 1];
      OtherItems(attrs[..|attrs| - 1]) + (if Listed(attr) then [(attr.0, Str(attr.1))] else [])
  }

  /** `extra_info`. */
  function ExtraInfo(attrs: seq<(string, PyValue)>): seq<Item> {
    RequestItem(attrs) + StandardItems(attrs, StandardFields) + OtherItems(attrs)
  }

  function Rendered(items: seq<Item>): (r: seq<string>)
    ensures |r| == |items|
  {
    seq(|items|, i requires 0 <= i < |items| => items[i].0 + "=" + items[i].1)
  }

  /** The formatted line for the standard formatter's `base` and the listed items. */
  function Render(base: string, items: seq<Item>): string {
    if items == [] then base else base + " [" + PyText.Join(Rendered(items), " | ") + "]"
  }

  lemma RenderedSnoc(items: seq<Item>, item: Item)
    ensures Rendered(items + [item]) == Rendered(items) + [item.0 + "=" + item.1]
  {
  }

  /** `format`, with its three loops. */
  method Format(base: string, attrs: seq<(string, PyValue)>) returns (logRecord: string)
    ensures logRecord == Render(base, ExtraInfo(attrs))
  {
    logRecord := base;
    var extraInfo: seq<string> := [];
    var requestId := Lookup(attrs, "request_id");
    if requestId.Some? {
      extraInfo := extraInfo + ["request_id" + "=" + Str(requestId.value)];
    }
    assert extraInfo == Rendered(RequestItem(attrs));
    extraInfo := AddStandardFields(attrs, StandardFields, extraInfo);
    extraInfo := AddOtherAttributes(attrs, extraInfo);
    RenderedAppend(RequestItem(attrs), StandardItems(attrs, StandardFields));
    RenderedAppend(RequestItem(attrs) + StandardItems(attrs, StandardFields), OtherItems(attrs));
    assert extraInfo == Rendered(ExtraInfo(attrs));
    if extraInfo != [] {
      logRecord := logRecord + " [" + PyText.Join(extraInfo, " | ") + "]";
    }
  }

  lemma RenderedAppend(a: seq<Item>, b: seq<Item>)
    ensures Rendered(a + b) == Rendered(a) + Rendered(b)
  {
  }

  /** The second loop of `format`: the standard fields present and not None, in order. */
  method AddStandardFields(attrs: seq<(string, PyValue)>, fields: seq<string>, extraInfo: seq<string>) returns (r: seq<string>)
    ensures r == extraInfo + Rendered(StandardItems(attrs, fields))
  {
    r := extraInfo;
    for k := 0 to |fields|
      invariant r == extraInfo + Rendered(StandardItems(attrs, fields[..k]))
    {
      var field := fields[k];
      var value := Lookup(attrs, field);
      assert fields[..k + 1][..k] == fields[..k];
      if value.Some? && !value.value.PyNone? {
        RenderedSnoc(StandardItems(attrs, fields[..k]), (field, Str(value.value)));
        r := r + [field + "=" + Str(value.value)];
      }
    }
    assert fields[..|fields|] == fields;
  }

  /** The third loop of `format`: every other attribute that is not None, in record order. */
  method AddOtherAttributes(attrs: seq<(string, PyValue)>, extraInfo: seq<string>) returns (r: seq<string>)
    ensures r == extraInfo + Rendered(OtherItems(attrs))
  {
    r := extraInfo;
    for k := 0 to |attrs|
      invariant r == extraInfo + Rendered(OtherItems(attrs[..k]))
    {
      var key, value := attrs[k].0, attrs[k].1;
      assert attrs[..k + 1][..k] == attrs[..k];
      if key !in StandardFields && key !in Builtins {
        if !value.PyNone? {
          RenderedSnoc(OtherItems(attrs[..k]), (key, Str(value)));
          r := r + [key + "=" + Str(value)];
        }
      }
    }
    assert attrs[..|attrs|] == attrs;
  }

  // ---------------------------------------------------------------------------------------------
  // Properties

  /** The standard formatter's line is kept unchanged at the head of the result, and something is
      appended exactly when there is at least one item. */
  lemma BaseIsPrefix(base: string, items: seq<Item>)
    ensures base <= Render(base, items)
    ensures Render(base, items) == base <==> items == []
  {
    if items != [] {
      assert Render(base, items) == base + (" [" + PyText.Join(Rendered(items), " | ") + "]");
    }
  }

  /** `request_id` leads whenever the record has the attribute, a None value shown as `None`. */
  lemma RequestIdFirst(attrs: seq<(string, PyValue)>, v: PyValue)
    requires DistinctKeys(attrs) && ("request_id", v) in attrs
    ensures ExtraInfo(attrs) != [] && ExtraInfo(attrs)[0] == ("request_id", Str(v))
  {
    LookupUnique(attrs, "request_id", v);
  }

  /** In a dictionary, the value found for a key is the one stored under it. */
  lemma {:induction false} LookupUnique(attrs: seq<(string, PyValue)>, name: string, v: PyValue)
    requires DistinctKeys(attrs) && (name, v) in attrs
    ensures Lookup(attrs, name) == Some(v)
  {
    if attrs[0].0 != name {
      assert (name, v) in attrs[1..];
      LookupUnique(attrs[1..], name, v);
    }
  }

  /** The standard items are exactly the present, non-None standard fields. */
  lemma {:induction false} StandardItemsMembership(attrs: seq<(string, PyValue)>, fields: seq<string>, item: Item)
    ensures item in StandardItems(attrs, fields) <==>
              item.0 in fields && Lookup(attrs, item.0).Some? && !Lookup(attrs, item.0).value.PyNone? &&
              item.1 == Str(Lookup(attrs, item.0).value)
  {
    if fields != [] {
      var init := fields[..|fields| - 1];
      StandardItemsMembership(attrs, init, item);
      assert fields == init + [fields[|fields| - 1]];
    }
  }

  /** The position of `f` in `fields`. */
  function Position(fields: seq<string>, f: string): (r: nat)
    requires f in fields
    ensures r < |fields| && fields[r] == f
  {
    if fields[0] == f then 0 else 1 + Position(fields[1..], f)
  }

  lemma {:induction false} PositionPrefix(fields: seq<string>, n: nat, f: string)
    requires n <= |fields| && f in fields[..n]
    ensures Position(fields, f) == Position(fields[..n], f)
  {
    if fields[0] != f {
      assert fields[1..][..n - 1] == fields[..n][1..];
      PositionPrefix(fields[1..], n - 1, f);
    }
  }

  lemma {:induction false} PositionOfDistinct(fields: seq<string>, i: nat)
    requires Distinct(fields) && i < |fields|
    ensures Position(fields, fields[i]) == i
  {
    if i > 0 {
      assert fields[1..][i - 1] == fields[i];
      PositionOfDistinct(fields[1..], i - 1);
    }
  }

  /** The standard items follow the order of the field list, each field at most once. */
  lemma {:induction false} StandardItemsOrdered(attrs: seq<(string, PyValue)>, fields: seq<string>)
    requires Distinct(fields)
    ensures forall item :: item in StandardItems(attrs, fields) ==> item.0 in fields
    ensures forall i, j :: 0 <= i < j < |StandardItems(attrs, fields)| ==>
              Position(fields, StandardItems(attrs, fields)[i].0) < Position(fields, StandardItems(attrs, fields)[j].0)
  {
    var items := StandardItems(attrs, fields);
    forall item | item in items ensures item.0 in fields {
      StandardItemsMembership(attrs, fields, item);
    }
    if fields != [] {
      var n := |fields| - 1;
      var init := fields[..n];
      var before := StandardItems(attrs, init);
      StandardItemsOrdered(attrs, init);
      PositionOfDistinct(fields, n);
      forall i | 0 <= i < |before| ensures Position(fields, before[i].0) == Position(init, before[i].0) < n {
        assert before[i] in before;
        PositionPrefix(fields, n, before[i].0);
      }
      forall i, j | 0 <= i < j < |items| ensures Position(fields, items[i].0) < Position(fields, items[j].0) {
        if j < |before| {
          assert items[i] == before[i] && items[j] == before[j];
        } else {
          assert items[i] == before[i] && items[j].0 == fields[n];
        }
      }
    }
  }

  /** The other items are exactly the listed attributes. */
  lemma {:induction false} OtherItemsMembership(attrs: seq<(string, PyValue)>, item: Item)
    ensures item in OtherItems(attrs) <==> exists v :: (item.0, v) in attrs && Listed((item.0, v)) && item.1 == Str(v)
  {
    if attrs != [] {
      var init := attrs[..|attrs| - 1];
      OtherItemsMembership(init, item);
      assert attrs == init + [attrs[|attrs| - 1]];
    }
  }

  /** With a record's distinct attribute names, the other items name distinct attributes. */
  lemma {:induction false} OtherItemsDistinct(attrs: seq<(string, PyValue)>)
    requires DistinctKeys(attrs)
    ensures forall i, j :: 0 <= i < j < |OtherItems(attrs)| ==> OtherItems(attrs)[i].0 != OtherItems(attrs)[j].0
  {
    if attrs != [] {
      var n := |attrs| - 1;
      var init := attrs[..n];
      var items := OtherItems(attrs);
      var before := OtherItems(init);
      OtherItemsDistinct(init);
      forall i, j | 0 <= i < j < |items| ensures items[i].0 != items[j].0 {
        if j >= |before| {
          assert items[i] == before[i] && items[i] in before;
          OtherItemsMembership(init, items[i]);
          var v :| (items[i].0, v) in init && Listed((items[i].0, v)) && items[i].1 == Str(v);
          var k :| 0 <= k < n && init[k] == (items[i].0, v);
          assert attrs[k].0 != attrs[n].0;
        }
      }
    }
  }

  /** Items from three parts with distinct names, no name shared between parts, name distinct items. */
  lemma ConcatDistinct(r: seq<Item>, s: seq<Item>, o: seq<Item>)
    requires forall i, j :: 0 <= i < j < |r| ==> r[i].0 != r[j].0
    requires forall i, j :: 0 <= i < j < |s| ==> s[i].0 != s[j].0
    requires forall i, j :: 0 <= i < j < |o| ==> o[i].0 != o[j].0
    requires forall x, y :: x in r && y in s ==> x.0 != y.0
    requires forall x, y :: x in r + s && y in o ==> x.0 != y.0
    ensures forall i, j :: 0 <= i < j < |r + s + o| ==> (r + s + o)[i].0 != (r + s + o)[j].0
  {
    var items := r + s + o;
    forall i, j | 0 <= i < j < |items| ensures items[i].0 != items[j].0 {
      if j < |r| + |s| {
        if i >= |r| {
          assert items[i] == s[i - |r|] && items[j] == s[j - |r|];
        } else if j >= |r| {
          assert items[i] in r && items[j] in s;
        }
      } else if i < |r| + |s| {
        assert items[i] in r + s && items[j] in o;
      } else {
        assert items[i] == o[i - |r| - |s|] && items[j] == o[j - |r| - |s|];
      }
    }
  }

  /** No attribute is listed twice: `request_id` and the standard fields are never repeated by the
      third loop, and each standard field appears at most once. */
  lemma ExtraInfoDistinct(attrs: seq<(string, PyValue)>)
    requires DistinctKeys(attrs)
    ensures forall i, j :: 0 <= i < j < |ExtraInfo(attrs)| ==> ExtraInfo(attrs)[i].0 != ExtraInfo(attrs)[j].0
  {
    var r := RequestItem(attrs);
    var s := StandardItems(attrs, StandardFields);
    var o := OtherItems(attrs);
    assert "request_id" !in StandardFields && "request_id" in Builtins;
    assert Distinct(StandardFields);
    StandardItemsOrdered(attrs, StandardFields);
    OtherItemsDistinct(attrs);
    forall x: Item, y: Item | x in r + s && y in o ensures x.0 != y.0 {
      OtherItemsMembership(attrs, y);
    }
    ConcatDistinct(r, s, o);
  }
}
