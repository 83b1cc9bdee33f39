/** `Value`: the JSON-like values plugins exchange, and the recursive check that bounds them. A Go
    string is a byte string: a `char` here stands for one byte. */
module ValueTree {
  import opened Wrappers

  const MAX_DEPTH: nat := 16
  const MAX_ITEMS: nat := 500
  const MAX_STATE_BYTES: nat := 16 * 1024

  type Int64 = n: int | -0x8000_0000_0000_0000 <= n < 0x8000_0000_0000_0000

  datatype Number = Finite(value: real) | Infinite | NaN

  datatype Field = Field(key: string, value: Value)

  datatype Value =
    | Null
    | Bool(boolean: bool)
    | Integer(integer: Int64)
    | Float(number: Number)
    | Text(text: string)
    | List(list: seq<Value>)
    | Object(fields: seq<Field>)
    | Unsupported(kind: string)

  /** What `encoding/json` and `unicode/utf8` do with a string or a finite float. */
  datatype Codec = Codec(validUtf8: string -> bool, quote: string -> string, decimal: real -> string)

  function Digits(n: nat): string {
    (if n >= 10 then Digits(n / 10) else "") + [('0' as int + n % 10) as char]
  }

  function FormatInt(n: int): string { if n < 0 then "-" + Digits(-n) else Digits(n) }

  /** The number that a numeral names. */
  function Numeral(s: string): int {
    if s == "" then 0 else 10 * Numeral(s[..|s| - 1]) + (s[|s| - 1] as int - '0' as int)
  }

  predicate IsNumeral(s: string) {
    s != "" && (forall i :: 0 <= i < |s| ==> '0' <= s[i] <= '9') && (|s| > 1 ==> s[0] != '0')
  }

  lemma {:induction false} DigitsRead(n: nat)
    ensures IsNumeral(Digits(n)) && Numeral(Digits(n)) == n && (n > 0 ==> Digits(n)[0] != '0')
  {
    if n >= 10 { DigitsRead(n / 10); }
    assert Digits(n)[..|Digits(n)| - 1] == if n >= 10 then Digits(n / 10) else "";
  }

  /** An integer is written as its decimal numeral, without leading zeros, after its sign. */
  lemma IntegerReads(n: int)
    ensures n >= 0 ==> IsNumeral(FormatInt(n)) && Numeral(FormatInt(n)) == n
    ensures n < 0 ==> FormatInt(n)[..1] == "-" && IsNumeral(FormatInt(n)[1..]) && Numeral(FormatInt(n)[1..]) == -n
  {
    DigitsRead(if n < 0 then -n else n);
  }

  // ----- What the check computes -----

  /** The size, if the value passes, and the item counter as the check leaves it. */
  datatype Checked = Checked(size: Option<nat>, items: nat)

  function Check(c: Codec, v: Value, depth: nat, items: nat): Checked
    decreases v, 0
  {
    if depth > MAX_DEPTH then Checked(None, items)
    else match v
      case Null => Checked(Some(|"null"|), items)
      case Bool(b) => Checked(Some(if b then |"true"| else |"false"|), items)
      case Integer(n) => Checked(Some(|FormatInt(n)|), items)
      case Float(number) => Checked(if number.Finite? then Some(|c.decimal(number.value)|) else None, items)
      case Text(text) => Checked(if c.validUtf8(text) then Some(|c.quote(text)|) else None, items)
      case List(list) =>
        if items + |list| > MAX_ITEMS then Checked(None, items + |list|)
        else CheckList(c, list, 0, 2, depth, items + |list|)
      case Object(fields) =>
        if items + |fields| > MAX_ITEMS then Checked(None, items + |fields|)
        else CheckFields(c, fields, 0, {}, 2, depth, items + |fields|)
      case Unsupported(_) => Checked(None, items)
  }

  function Comma(index: nat): nat { if index > 0 then 1 else 0 }

  function CheckList(c: Codec, list: seq<Value>, i: nat, size: nat, depth: nat, items: nat): Checked
    requires i <= |list|
    decreases list, 1, |list| - i
  {
    if i == |list| then Checked(Some(size), items)
    else
      var item := Check(c, list[i], depth + 1, items);
      if item.size.None? then item
      else CheckList(c, list, i + 1, size + Comma(i) + item.size.value, depth, item.items)
  }

  predicate KeyOk(c: Codec, key: string, seen: set<string>) { key != "" && c.validUtf8(key) && key !in seen }

  function CheckFields(c: Codec, fields: seq<Field>, i: nat, seen: set<string>, size: nat, depth: nat, items: nat): Checked
    requires i <= |fields|
    decreases fields, 1, |fields| - i
  {
    if i == |fields| then Checked(Some(size), items)
    else if !KeyOk(c, fields[i].key, seen) then Checked(None, items)
    else
      var field := Check(c, fields[i].value, depth + 1, items);
      if field.size.None? then field
      else CheckFields(c, fields, i + 1, seen + {fields[i].key},
                       size + Comma(i) + |c.quote(fields[i].key)| + 1 + field.size.value, depth, field.items)
  }

  // ----- The source's methods -----

  class Counter {
    var items: nat

    constructor ()
      ensures items == 0
    {
      items := 0;
    }
  }

  /** `validate`: threads one counter through the tree. */
  method Validate(c: Codec, v: Value, depth: nat, counter: Counter) returns (size: Option<nat>)
    modifies counter
    ensures Checked(size, counter.items) == Check(c, v, depth, old(counter.items))
    decreases v
  {
    if depth > MAX_DEPTH { return None; }
    match v {
      case Null => return Some(|"null"|);
      case Bool(b) => return Some(if b then |"true"| else |"false"|);
      case Integer(n) => return Some(|FormatInt(n)|);
      case Float(number) =>
        if !number.Finite? { return None; }
        return Some(|c.decimal(number.value)|);
      case Text(text) =>
        if !c.validUtf8(text) { return None; }
        return Some(|c.quote(text)|);
      case List(list) =>
        counter.items := counter.items + |list|;
        if counter.items > MAX_ITEMS { return None; }
        ghost var spec := CheckList(c, list, 0, 2, depth, counter.items);
        var total: nat := 2;
        for i := 0 to |list|
          invariant spec == CheckList(c, list, i, total, depth, counter.items)
        {
          var item := Validate(c, list[i], depth + 1, counter);
          if item.None? { return None; }
          if i > 0 { total := total + 1; }
          total := total + item.value;
        }
        return Some(total);
      case Object(fields) =>
        counter.items := counter.items + |fields|;
        if counter.items > MAX_ITEMS { return None; }
        ghost var spec := CheckFields(c, fields, 0, {}, 2, depth, counter.items);
        var seen: set<string> := {};
        var total: nat := 2;
        for i := 0 to |fields|
          invariant spec == CheckFields(c, fields, i, seen, total, depth, counter.items)
        {
          var key := fields[i].key;
          if key == "" || !c.validUtf8(key) || key in seen { return None; }
          seen := seen + {key};
          var field := Validate(c, fields[i].value, depth + 1, counter);
          if field.None? { return None; }
          if i > 0 { total := total + 1; }
          total := total + |c.quote(key)| + 1 + field.value;
        }
        return Some(total);
      case Unsupported(_) => return None;
    }
  }

  method EncodedSize(c: Codec, v: Value) returns (size: Option<nat>)
    ensures size == Check(c, v, 0, 0).size
  {
    var counter := new Counter();
    size := Validate(c, v, 0, counter);
  }

  method ValidateState(c: Codec, v: Value) returns (ok: bool)
    ensures ok <==> Acceptable(c, v) && |Print(c, v)| <= MAX_STATE_BYTES
  {
    var size := EncodedSize(c, v);
    CheckExact(c, v, 0, 0);
    if size.None? { return false; }
    return size.value <= MAX_STATE_BYTES;
  }

  // ----- What the check means -----

  /** The JSON text, in field order and without spaces. */
  function Print(c: Codec, v: Value): string
    decreases v, 0
  {
    match v
    case Null => "null"
    case Bool(b) => if b then "true" else "false"
    case Integer(n) => FormatInt(n)
    case Float(number) => if number.Finite? then c.decimal(number.value) else ""
    case Text(text) => c.quote(text)
    case List(list) => "[" + PrintList(c, list) + "]"
    case Object(fields) => "{" + PrintFields(c, fields) + "}"
    case Unsupported(_) => ""
  }

  function PrintList(c: Codec, list: seq<Value>): string
    decreases list
  {
    if list == [] then ""
    else
      var i := |list| - 1;
      PrintList(c, list[..i]) + (if i > 0 then "," else "") + Print(c, list[i])
  }

  function PrintFields(c: Codec, fields: seq<Field>): string
    decreases fields
  {
    if fields == [] then ""
    else
      var i := |fields| - 1;
      PrintFields(c, fields[..i]) + (if i > 0 then "," else "") + c.quote(fields[i].key) + ":" + Print(c, fields[i].value)
  }

  /** How many items the lists and objects of a value hold in all. */
  function Items(v: Value): nat
    decreases v, 0
  {
    match v
    case List(list) => |list| + ItemsIn(list)
    case Object(fields) => |fields| + ItemsInFields(fields)
    case _ => 0
  }

  function ItemsIn(list: seq<Value>): nat
    decreases list
  {
    if list == [] then 0 else ItemsIn(list[..|list| - 1]) + Items(list[|list| - 1])
  }

  function ItemsInFields(fields: seq<Field>): nat
    decreases fields
  {
    if fields == [] then 0 else ItemsInFields(fields[..|fields| - 1]) + Items(fields[|fields| - 1].value)
  }

  predicate Shallow(v: Value, depth: nat)
    decreases v
  {
    && depth <= MAX_DEPTH
    && (v.List? ==> forall i :: 0 <= i < |v.list| ==> Shallow(v.list[i], depth + 1))
    && (v.Object? ==> forall i :: 0 <= i < |v.fields| ==> Shallow(v.fields[i].value, depth + 1))
  }

  predicate KeysLegal(c: Codec, fields: seq<Field>) {
    && (forall i :: 0 <= i < |fields| ==> fields[i].key != "" && c.validUtf8(fields[i].key))
    && (forall i, j :: 0 <= i < j < |fields| ==> fields[i].key != fields[j].key)
  }

  predicate Legal(c: Codec, v: Value)
    decreases v
  {
    match v
    case Float(number) => number.Finite?
    case Text(text) => c.validUtf8(text)
    case List(list) => forall i :: 0 <= i < |list| ==> Legal(c, list[i])
    case Object(fields) => KeysLegal(c, fields) && forall i :: 0 <= i < |fields| ==> Legal(c, fields[i].value)
    case Unsupported(_) => false
    case _ => true
  }

  predicate Acceptable(c: Codec, v: Value) { Shallow(v, 0) && Legal(c, v) && Items(v) <= MAX_ITEMS }

  /** The check from anywhere in a tree: it passes exactly the legal values that stay within the depth
      and the items left; the size is the length of the JSON text, the counter has counted the items. */
  lemma {:induction false} CheckExact(c: Codec, v: Value, depth: nat, items: nat)
    requires items <= MAX_ITEMS
    ensures Check(c, v, depth, items).size.Some? <==> Shallow(v, depth) && Legal(c, v) && items + Items(v) <= MAX_ITEMS
    ensures Check(c, v, depth, items).size.Some? ==> Check(c, v, depth, items) == Checked(Some(|Print(c, v)|), items + Items(v))
    decreases v, 0
  {
    if depth <= MAX_DEPTH {
      match v {
        case List(list) => if items + |list| <= MAX_ITEMS { ListCase(c, list, depth, items); }
        case Object(fields) => if items + |fields| <= MAX_ITEMS { FieldsCase(c, fields, depth, items); }
        case _ =>
      }
    }
  }

  lemma {:induction false} ListCase(c: Codec, list: seq<Value>, depth: nat, items: nat)
    requires items + |list| <= MAX_ITEMS && depth <= MAX_DEPTH
    ensures var v := List(list);
            && (Check(c, v, depth, items).size.Some? <==> Shallow(v, depth) && Legal(c, v) && items + Items(v) <= MAX_ITEMS)
            && (Check(c, v, depth, items).size.Some? ==> Check(c, v, depth, items) == Checked(Some(|Print(c, v)|), items + Items(v)))
    decreases list, 2
  {
    assert list[..|list|] == list;
    ListExact(c, list, |list|, depth, items + |list|);
  }

  lemma {:induction false} FieldsCase(c: Codec, fields: seq<Field>, depth: nat, items: nat)
    requires items + |fields| <= MAX_ITEMS && depth <= MAX_DEPTH
    ensures var v := Object(fields);
            && (Check(c, v, depth, items).size.Some? <==> Shallow(v, depth) && Legal(c, v) && items + Items(v) <= MAX_ITEMS)
            && (Check(c, v, depth, items).size.Some? ==> Check(c, v, depth, items) == Checked(Some(|Print(c, v)|), items + Items(v)))
    decreases fields, 2
  {
    assert fields[..|fields|] == fields;
    FieldsExact(c, fields, |fields|, depth, items + |fields|);
  }

  ghost predicate ListFits(c: Codec, list: seq<Value>, n: nat, depth: nat, items: nat)
    requires n <= |list|
  {
    && (forall i :: 0 <= i < n ==> Shallow(list[i], depth + 1) && Legal(c, list[i]))
    && items + ItemsIn(list[..n]) <= MAX_ITEMS
  }

  /** After `n` items without a failure the loop is as stated; otherwise it has failed. */
  lemma {:induction false} ListExact(c: Codec, list: seq<Value>, n: nat, depth: nat, items: nat)
    requires n <= |list| && items <= MAX_ITEMS
    ensures ListFits(c, list, n, depth, items) ==>
              CheckList(c, list, 0, 2, depth, items) ==
              CheckList(c, list, n, 2 + |PrintList(c, list[..n])|, depth, items + ItemsIn(list[..n]))
    ensures !ListFits(c, list, n, depth, items) ==> CheckList(c, list, 0, 2, depth, items).size.None?
    decreases list, 1, n
  {
    if n > 0 {
      ListExact(c, list, n - 1, depth, items);
      assert list[..n][..n - 1] == list[..n - 1];
      if ListFits(c, list, n - 1, depth, items) {
        CheckExact(c, list[n - 1], depth + 1, items + ItemsIn(list[..n - 1]));
      }
    }
  }

  ghost predicate FieldsFit(c: Codec, fields: seq<Field>, n: nat, depth: nat, items: nat)
    requires n <= |fields|
  {
    && KeysLegal(c, fields[..n])
    && (forall i :: 0 <= i < n ==> Shallow(fields[i].value, depth + 1) && Legal(c, fields[i].value))
    && items + ItemsInFields(fields[..n]) <= MAX_ITEMS
  }

  ghost function Keys(fields: seq<Field>): set<string> { set i | 0 <= i < |fields| :: fields[i].key }

  lemma {:induction false} FieldsExact(c: Codec, fields: seq<Field>, n: nat, depth: nat, items: nat)
    requires n <= |fields| && items <= MAX_ITEMS
    ensures FieldsFit(c, fields, n, depth, items) ==>
              CheckFields(c, fields, 0, {}, 2, depth, items) ==
              CheckFields(c, fields, n, Keys(fields[..n]), 2 + |PrintFields(c, fields[..n])|, depth,
                          items + ItemsInFields(fields[..n]))
    ensures !FieldsFit(c, fields, n, depth, items) ==> CheckFields(c, fields, 0, {}, 2, depth, items).size.None?
    decreases fields, 1, n
  {
    if n == 0 {
      NoFieldsYet(c, fields, depth, items);
    } else {
      FieldsExact(c, fields, n - 1, depth, items);
      if FieldsFit(c, fields, n - 1, depth, items) {
        LastFieldExact(c, fields, n, depth, items);
      } else {
        FitStep(c, fields, n, depth, items);
      }
    }
  }

  lemma NoFieldsYet(c: Codec, fields: seq<Field>, depth: nat, items: nat)
    requires items <= MAX_ITEMS
    ensures FieldsFit(c, fields, 0, depth, items) && Keys(fields[..0]) == {}
    ensures |PrintFields(c, fields[..0])| == 0 && ItemsInFields(fields[..0]) == 0
  {
    assert fields[..0] == [];
  }

  lemma FitStep(c: Codec, fields: seq<Field>, n: nat, depth: nat, items: nat)
    requires 0 < n <= |fields|
    ensures FieldsFit(c, fields, n, depth, items) <==>
              && FieldsFit(c, fields, n - 1, depth, items) && KeyOk(c, fields[n - 1].key, Keys(fields[..n - 1]))
              && Shallow(fields[n - 1].value, depth + 1) && Legal(c, fields[n - 1].value)
              && items + ItemsInFields(fields[..n - 1]) + Items(fields[n - 1].value) <= MAX_ITEMS
  {
    KeysExtend(c, fields, n);
    FieldGrows(c, fields, n);
  }

  lemma {:induction false} LastFieldExact(c: Codec, fields: seq<Field>, n: nat, depth: nat, items: nat)
    requires 0 < n <= |fields| && FieldsFit(c, fields, n - 1, depth, items)
    ensures var from := CheckFields(c, fields, n - 1, Keys(fields[..n - 1]), 2 + |PrintFields(c, fields[..n - 1])|, depth,
                                    items + ItemsInFields(fields[..n - 1]));
            if FieldsFit(c, fields, n, depth, items) then
              from == CheckFields(c, fields, n, Keys(fields[..n]), 2 + |PrintFields(c, fields[..n])|, depth,
                                  items + ItemsInFields(fields[..n]))
            else from.size.None?
    decreases fields, 0
  {
    var value, at := fields[n - 1].value, items + ItemsInFields(fields[..n - 1]);
    CheckExact(c, value, depth + 1, at);
    FieldStep(c, fields, n, 2 + |PrintFields(c, fields[..n - 1])|, depth, at, |Print(c, value)|, Items(value));
    KeysExtend(c, fields, n);
    FieldGrows(c, fields, n);
    FitStep(c, fields, n, depth, items);
  }

  lemma KeysExtend(c: Codec, fields: seq<Field>, n: nat)
    requires 0 < n <= |fields|
    ensures Keys(fields[..n]) == Keys(fields[..n - 1]) + {fields[n - 1].key}
    ensures KeysLegal(c, fields[..n]) <==> KeysLegal(c, fields[..n - 1]) && KeyOk(c, fields[n - 1].key, Keys(fields[..n - 1]))
  {
    var before, all := fields[..n - 1], fields[..n];
    assert all[..n - 1] == before && all[n - 1] == fields[n - 1];
    assert forall i :: 0 <= i < n - 1 ==> all[i] == before[i];
  }

  lemma FieldGrows(c: Codec, fields: seq<Field>, n: nat)
    requires 0 < n <= |fields|
    ensures |PrintFields(c, fields[..n])| ==
            |PrintFields(c, fields[..n - 1])| + Comma(n - 1) + |c.quote(fields[n - 1].key)| + 1 + |Print(c, fields[n - 1].value)|
    ensures ItemsInFields(fields[..n]) == ItemsInFields(fields[..n - 1]) + Items(fields[n - 1].value)
  {
    assert fields[..n][..n - 1] == fields[..n - 1];
  }

  /** One turn of the loop over fields, given what the check of the field's value yields. */
  lemma FieldStep(c: Codec, fields: seq<Field>, n: nat, size: nat, depth: nat, at: nat, printed: nat, inside: nat)
    requires 0 < n <= |fields|
    requires var value := Check(c, fields[n - 1].value, depth + 1, at); value.size.Some? ==> value == Checked(Some(printed), at + inside)
    ensures var key, seen := fields[n - 1].key, Keys(fields[..n - 1]);
            CheckFields(c, fields, n - 1, seen, size, depth, at) ==
            if !KeyOk(c, key, seen) then Checked(None, at)
            else if Check(c, fields[n - 1].value, depth + 1, at).size.None? then Check(c, fields[n - 1].value, depth + 1, at)
            else CheckFields(c, fields, n, seen + {key}, size + Comma(n - 1) + |c.quote(key)| + 1 + printed, depth, at + inside)
  {
  }

  // ----- The main results -----

  /** `Validate` and `EncodedSize` accept exactly the legal values of depth 16 and 500 items at most;
      the size is that of the JSON text and the counter that of the items. */
  lemma AcceptsExactly(c: Codec, v: Value)
    ensures Check(c, v, 0, 0).size.Some? <==> Acceptable(c, v)
    ensures Acceptable(c, v) ==> Check(c, v, 0, 0) == Checked(Some(|Print(c, v)|), Items(v))
  {
    CheckExact(c, v, 0, 0);
  }

  ghost predicate Inside(sub: Value, v: Value)
    decreases v
  {
    || sub == v
    || (v.List? && exists i :: 0 <= i < |v.list| && Inside(sub, v.list[i]))
    || (v.Object? && exists i :: 0 <= i < |v.fields| && Inside(sub, v.fields[i].value))
  }

  lemma {:induction false} Shallower(v: Value, depth: nat, lower: nat)
    requires lower <= depth && Shallow(v, depth)
    ensures Shallow(v, lower)
    decreases v
  {
    match v {
      case List(list) => forall i | 0 <= i < |list| ensures Shallow(list[i], lower + 1) { Shallower(list[i], depth + 1, lower + 1); }
      case Object(fields) =>
        forall i | 0 <= i < |fields| ensures Shallow(fields[i].value, lower + 1) { Shallower(fields[i].value, depth + 1, lower + 1); }
      case _ =>
    }
  }

  lemma {:induction false} ItemsOfOne(list: seq<Value>, i: nat)
    requires i < |list|
    ensures Items(list[i]) <= ItemsIn(list)
    decreases |list|
  {
    if i < |list| - 1 { ItemsOfOne(list[..|list| - 1], i); }
  }

  lemma {:induction false} ItemsOfField(fields: seq<Field>, i: nat)
    requires i < |fields|
    ensures Items(fields[i].value) <= ItemsInFields(fields)
    decreases |fields|
  {
    if i < |fields| - 1 { ItemsOfField(fields[..|fields| - 1], i); }
  }

  /** Whatever is inside a valid value is valid on its own. */
  lemma {:induction false} PartsAcceptable(c: Codec, sub: Value, v: Value)
    requires Acceptable(c, v) && Inside(sub, v)
    ensures Acceptable(c, sub)
    decreases v
  {
    if sub != v {
      match v {
        case List(list) =>
          var i :| 0 <= i < |list| && Inside(sub, list[i]);
          Shallower(list[i], 1, 0);
          ItemsOfOne(list, i);
          PartsAcceptable(c, sub, list[i]);
        case Object(fields) =>
          var i :| 0 <= i < |fields| && Inside(sub, fields[i].value);
          Shallower(fields[i].value, 1, 0);
          ItemsOfField(fields, i);
          PartsAcceptable(c, sub, fields[i].value);
        case _ =>
      }
    }
  }

  // ----- Copies and constructors -----

  /** A copy is the same value, so it prints, counts and validates as the original does. */
  method Clone(v: Value) returns (out: Value)
    ensures out == v
    decreases v, 0
  {
    match v {
      case List(list) => var copy := CloneValues(list); return List(copy);
      case Object(fields) => var copy := CloneFields(fields); return Object(copy);
      case _ => return v;
    }
  }

  method CloneValues(values: seq<Value>) returns (out: seq<Value>)
    ensures out == values
    decreases values, 1
  {
    out := [];
    for i := 0 to |values|
      invariant out == values[..i]
    {
      var item := Clone(values[i]);
      out := out + [item];
    }
  }

  method CloneFields(fields: seq<Field>) returns (out: seq<Field>)
    ensures out == fields
    decreases fields, 1
  {
    out := [];
    for i := 0 to |fields|
      invariant out == fields[..i]
    {
      var value := Clone(fields[i].value);
      out := out + [Field(fields[i].key, value)];
    }
  }

  function FloatValue(number: Number): (r: Option<Value>)
    ensures r.Some? <==> number.Finite?
  {
    if number.Finite? then Some(Float(number)) else None
  }

  method ListValue(c: Codec, values: seq<Value>) returns (r: Option<Value>)
    ensures r == if Acceptable(c, List(values)) then Some(List(values)) else None
  {
    var copy := CloneValues(values);
    var size := EncodedSize(c, List(copy));
    AcceptsExactly(c, List(copy));
    return if size.Some? then Some(List(copy)) else None;
  }

  /** The keys are checked for emptiness and repetition before the whole is: that rejects nothing else. */
  method ObjectValue(c: Codec, fields: seq<Field>) returns (r: Option<Value>)
    ensures r == if Acceptable(c, Object(fields)) then Some(Object(fields)) else None
  {
    var copy := CloneFields(fields);
    var seen: set<string> := {};
    for i := 0 to |copy|
      invariant seen == set k | 0 <= k < i :: copy[k].key
    {
      var key := copy[i].key;
      if key == "" || key in seen {
        assert !KeysLegal(c, fields);
        return None;
      }
      seen := seen + {key};
    }
    var size := EncodedSize(c, Object(copy));
    AcceptsExactly(c, Object(copy));
    return if size.Some? then Some(Object(copy)) else None;
  }
}
