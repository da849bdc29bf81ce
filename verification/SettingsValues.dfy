/**
 Settings as JSON-like values: comparing them, and reading and writing them by path.

 A value here is immutable, so copying one is the identity.
 */
module SettingsValues {

  datatype Number = Finite(value: real) | MinusZero | Infinite(isNegative: bool) | NotANumber

  datatype Value =
    | Absent
    | Null
    | Bool(flag: bool)
    | Num(number: Number)
    | Text(text: string)
    | List(items: seq<Value>)
    | Rec(fields: map<string, Value>)

  type Fields = map<string, Value>

  /** A dotted path, split at its dots; it always has a part. */
  type Path = p: seq<string> | p != [] witness [""]

  // ---------------------------------------------------------------- the keys of a list

  function Key(i: nat): (key: string)
    ensures key != []
  {
    if i < 10 then [('0' as int + i) as char] else Key(i / 10) + [('0' as int + i % 10) as char]
  }

  lemma {:induction false} KeyIsInjective(i: nat, j: nat)
    ensures Key(i) == Key(j) ==> i == j
  {
    assert Key(i)[|Key(i)| - 1] == ('0' as int + i % 10) as char;
    assert Key(j)[|Key(j)| - 1] == ('0' as int + j % 10) as char;
    if i >= 10 {
      assert Key(i)[..|Key(i)| - 1] == Key(i / 10);
    }
    if j >= 10 {
      assert Key(j)[..|Key(j)| - 1] == Key(j / 10);
    }
    if i >= 10 && j >= 10 {
      KeyIsInjective(i / 10, j / 10);
    }
  }

  /** The fields of a list, seen as an object. */
  function ListFields(items: seq<Value>): (fields: Fields)
    ensures forall i :: 0 <= i < |items| ==> Key(i) in fields
  {
    if items == [] then map[]
    else
      var last := |items| - 1;
      ListFields(items[..last])[Key(last) := items[last]]
  }

  /** Each of them is an item under its key. */
  lemma {:induction false} FieldIsItem(items: seq<Value>, key: string) returns (i: nat)
    requires key in ListFields(items)
    ensures i < |items| && key == Key(i) && ListFields(items)[key] == items[i]
  {
    var last := |items| - 1;
    if key == Key(last) {
      i := last;
    } else {
      i := FieldIsItem(items[..last], key);
    }
  }

  lemma {:induction false} ListFieldsAt(items: seq<Value>, i: nat)
    requires i < |items|
    ensures Key(i) in ListFields(items) && ListFields(items)[Key(i)] == items[i]
  {
    var j := FieldIsItem(items, Key(i));
    KeyIsInjective(i, j);
  }

  lemma {:induction false} ListFieldsCount(items: seq<Value>)
    ensures |ListFields(items)| == |items|
  {
    if items != [] {
      var before, last := items[..|items| - 1], |items| - 1;
      ListFieldsCount(before);
      if Key(last) in ListFields(before) {
        var i := FieldIsItem(before, Key(last));
        KeyIsInjective(last, i);
      }
    }
  }

  predicate IsObject(v: Value) {
    v.List? || v.Rec?
  }

  function FieldsOf(v: Value): Fields
    requires IsObject(v)
  {
    if v.List? then ListFields(v.items) else v.fields
  }

  /** What an object holds under a key of its own; a list has a length besides its items. */
  function Own(v: Value, key: string): Value
    requires IsObject(v)
  {
    if key in FieldsOf(v) then FieldsOf(v)[key]
    else if v.List? && key == LENGTH then Num(Finite(|v.items| as real))
    else Absent
  }

  predicate HasOwn(v: Value, key: string)
    requires IsObject(v)
  {
    key in FieldsOf(v) || (v.List? && key == LENGTH)
  }

  const LENGTH := "length"

  // ---------------------------------------------------------------- comparing

  predicate ValuesEqual(left: Value, right: Value)
    decreases left
  {
    match left
    case List(items) =>
      if right.List? then
        |items| == |right.items| && forall i :: 0 <= i < |items| ==> ValuesEqual(items[i], right.items[i])
      else
        right.Rec? && |items| == |right.fields|
        && forall i :: 0 <= i < |items| ==> Key(i) in right.fields && ValuesEqual(items[i], right.fields[Key(i)])
    case Rec(fields) =>
      && IsObject(right) && |fields| == |FieldsOf(right)|
      && forall key :: key in fields ==> HasOwn(right, key) && ValuesEqual(fields[key], Own(right, key))
    case _ => left == right
  }

  /** A value with every list turned into the object with the same keys. */
  function Normal(v: Value): Value {
    match v
    case List(items) => Rec(NormalList(items))
    case Rec(fields) => Rec(map key | key in fields :: Normal(fields[key]))
    case _ => v
  }

  function NormalList(items: seq<Value>): (fields: Fields)
    ensures forall key :: key in fields <==> key in ListFields(items)
  {
    if items == [] then map[]
    else NormalList(items[..|items| - 1])[Key(|items| - 1) := Normal(items[|items| - 1])]
  }

  lemma {:induction false} NormalListAt(items: seq<Value>, i: nat)
    requires i < |items|
    ensures Key(i) in NormalList(items) && NormalList(items)[Key(i)] == Normal(items[i])
  {
    ListFieldsAt(items, i);
    KeyIsInjective(i, |items| - 1);
    if i < |items| - 1 {
      NormalListAt(items[..|items| - 1], i);
    }
  }

  lemma {:induction false} NormalFields(v: Value)
    requires IsObject(v)
    ensures Normal(v).Rec? && Normal(v).fields.Keys == FieldsOf(v).Keys
    ensures forall key :: key in FieldsOf(v) ==> Normal(v).fields[key] == Normal(FieldsOf(v)[key])
  {
    if v.List? {
      NormalListFields(v.items);
    }
    hide ListFields, NormalList;
  }

  lemma {:induction false} NormalListFields(items: seq<Value>)
    ensures NormalList(items).Keys == ListFields(items).Keys
    ensures forall key :: key in ListFields(items) ==> NormalList(items)[key] == Normal(ListFields(items)[key])
  {
    hide Key, Normal;
    forall key | key in ListFields(items)
      ensures NormalList(items)[key] == Normal(ListFields(items)[key])
    {
      var i := FieldIsItem(items, key);
      NormalListAt(items, i);
    }
  }

  /** One set inside another of the same size is all of it. */
  lemma {:induction false} SameSize<T>(a: set<T>, b: set<T>)
    requires a <= b && |a| == |b|
    ensures a == b
  {
    if a != {} {
      var x :| x in a;
      SameSize(a - {x}, b - {x});
    }
  }

  /** Field by field, as for objects. */
  ghost predicate FieldsEqual(l: Fields, r: Fields) {
    |l| == |r| && forall key :: key in l ==> key in r && ValuesEqual(l[key], r[key])
  }

  ghost predicate EqualByKey(items: seq<Value>, r: Fields) {
    |items| == |r| && forall i :: 0 <= i < |items| ==> Key(i) in r && ValuesEqual(items[i], r[Key(i)])
  }

  lemma {:induction false} ListFieldsEqual(items: seq<Value>, r: Fields)
    ensures EqualByKey(items, r) <==> FieldsEqual(ListFields(items), r)
  {
    hide ValuesEqual, Key;
    ListFieldsCount(items);
    forall i | 0 <= i < |items|
      ensures Key(i) in ListFields(items) && ListFields(items)[Key(i)] == items[i]
    {
      ListFieldsAt(items, i);
    }
    forall key | key in ListFields(items)
      ensures exists i :: 0 <= i < |items| && key == Key(i)
    {
      var i := FieldIsItem(items, key);
    }
  }

  /** Without a key named `length`, comparing two objects is comparing their fields, whether they are lists or not. */
  lemma {:induction false} ValuesEqualFields(left: Value, right: Value)
    requires IsObject(left) && IsObject(right)
    ensures FieldsEqual(FieldsOf(left), FieldsOf(right)) ==> ValuesEqual(left, right)
    ensures LENGTH !in FieldsOf(left) && ValuesEqual(left, right) ==> FieldsEqual(FieldsOf(left), FieldsOf(right))
  {
    if left.Rec? {
      RecEqualFields(left, right);
    } else if right.List? {
      TwoListsEqual(left.items, right.items);
      hide ListFields, Key;
    } else {
      ListFieldsEqual(left.items, right.fields);
      hide ListFields, Key;
    }
  }

  lemma {:induction false} RecEqualFields(left: Value, right: Value)
    requires left.Rec? && IsObject(right)
    ensures FieldsEqual(left.fields, FieldsOf(right)) ==> ValuesEqual(left, right)
    ensures LENGTH !in left.fields && ValuesEqual(left, right) ==> FieldsEqual(left.fields, FieldsOf(right))
  {
    hide ListFields, Key;
  }

  lemma {:induction false} TwoListsEqual(items: seq<Value>, others: seq<Value>)
    ensures ValuesEqual(List(items), List(others)) <==> FieldsEqual(ListFields(items), ListFields(others))
  {
    ListFieldsEqual(items, ListFields(others));
    ListsEqual(items, others);
    ItemsByKey(items, others);
  }

  lemma {:induction false} ItemsByKey(items: seq<Value>, others: seq<Value>)
    ensures
      EqualByKey(items, ListFields(others)) <==>
      (|items| == |others| && forall i :: 0 <= i < |items| ==> ValuesEqual(items[i], others[i]))
  {
    hide ValuesEqual, Key;
    var r := ListFields(others);
    ListFieldsCount(others);
    forall i | 0 <= i < |others|
      ensures Key(i) in r && r[Key(i)] == others[i]
    {
      ListFieldsAt(others, i);
    }
  }

  lemma {:induction false} ListsEqual(items: seq<Value>, others: seq<Value>)
    ensures
      ValuesEqual(List(items), List(others)) <==>
      (|items| == |others| && forall i :: 0 <= i < |items| ==> ValuesEqual(items[i], others[i]))
  {
  }

  /** An object that a list could be taken for: it holds its own size as `length`, and else only list indices below it. */
  ghost predicate ImitatesList(fields: Fields) {
    && LENGTH in fields && fields[LENGTH] == Num(Finite(|fields| as real))
    && forall key :: key in fields && key != LENGTH ==> IsIndexBelow(key, |fields|)
  }

  ghost predicate IsIndexBelow(key: string, n: nat) {
    exists i: nat :: i < n && key == Key(i)
  }

  /** No object anywhere in the value is one that a list could be taken for. */
  ghost predicate Clear(v: Value) {
    match v
    case List(items) => forall i :: 0 <= i < |items| ==> Clear(items[i])
    case Rec(fields) => !ImitatesList(fields) && forall key :: key in fields ==> Clear(fields[key])
    case _ => true
  }

  lemma {:induction false} FieldIsSmaller(v: Value, key: string)
    requires IsObject(v) && key in FieldsOf(v)
    ensures FieldsOf(v)[key] < v
    ensures Clear(v) ==> Clear(FieldsOf(v)[key])
  {
    hide ImitatesList;
    if v.List? {
      var i := FieldIsItem(v.items, key);
    }
  }

  /** Values that are the same up to lists written as objects compare equal. */
  lemma {:induction false} EqualWhenSame(left: Value, right: Value)
    requires Normal(left) == Normal(right)
    ensures ValuesEqual(left, right)
    decreases left
  {
    hide ValuesEqual, ListFields, NormalList;
    if IsObject(left) && IsObject(right) {
      var l, r := FieldsOf(left), FieldsOf(right);
      NormalFields(left);
      NormalFields(right);
      assert l.Keys == r.Keys && |l| == |l.Keys| && |r| == |r.Keys|;
      forall key | key in l
        ensures key in r && ValuesEqual(l[key], r[key])
      {
        FieldIsSmaller(left, key);
        EqualWhenSame(l[key], r[key]);
      }
      ValuesEqualFields(left, right);
    } else {
      PlainEqual(left, right);
    }
  }

  lemma {:induction false} PlainEqual(left: Value, right: Value)
    requires !(IsObject(left) && IsObject(right))
    ensures ValuesEqual(left, right) <==> left == right
    ensures Normal(left) == Normal(right) <==> left == right
  {
  }

  /** And where no object on the left could be taken for a list, no others do. */
  lemma {:induction false} SameWhenEqual(left: Value, right: Value)
    requires ValuesEqual(left, right) && Clear(left)
    ensures Normal(left) == Normal(right)
    decreases left
  {
    hide ValuesEqual, ListFields, NormalList, Clear;
    if IsObject(left) && IsObject(right) {
      var l, r := FieldsOf(left), FieldsOf(right);
      ClearCompares(left, right);
      forall key | key in l
        ensures Normal(l[key]) == Normal(r[key])
      {
        FieldIsSmaller(left, key);
        SameWhenEqual(l[key], r[key]);
      }
      assert |l| == |l.Keys| && |r| == |r.Keys|;
      SameSize(l.Keys, r.Keys);
      SameFields(left, right);
    } else {
      PlainEqual(left, right);
    }
  }

  /** Such an object compares field by field. */
  lemma {:induction false} ClearCompares(left: Value, right: Value)
    requires IsObject(left) && IsObject(right) && ValuesEqual(left, right) && Clear(left)
    ensures FieldsEqual(FieldsOf(left), FieldsOf(right))
  {
    if left.List? {
      LengthIsNoIndex(left.items);
    } else if right.List? && LENGTH in left.fields {
      EqualToListImitates(left.fields, right.items);
    } else {
      RecToOther(left, right);
    }
    hide ValuesEqual, Clear;
    ValuesEqualFields(left, right);
  }

  lemma {:induction false} RecToOther(left: Value, right: Value)
    requires left.Rec? && IsObject(right) && (right.Rec? || LENGTH !in left.fields) && ValuesEqual(left, right)
    ensures FieldsEqual(FieldsOf(left), FieldsOf(right))
  {
    hide ListFields, Key;
  }

  /** An object with a key `length` that compares equal to a list imitates one. */
  lemma {:induction false} EqualToListImitates(fields: Fields, items: seq<Value>)
    requires LENGTH in fields && ValuesEqual(Rec(fields), List(items))
    ensures ImitatesList(fields)
  {
    ListFieldsCount(items);
    LengthIsNoIndex(items);
    forall key | key in fields && key != LENGTH
      ensures IsIndexBelow(key, |fields|)
    {
      assert key in ListFields(items);
      var i := FieldIsItem(items, key);
    }
    assert Own(List(items), LENGTH) == Num(Finite(|items| as real));
    PlainEqual(Num(Finite(|items| as real)), fields[LENGTH]);
    PlainEqual(fields[LENGTH], Num(Finite(|items| as real)));
  }

  lemma {:induction false} SameFields(left: Value, right: Value)
    requires IsObject(left) && IsObject(right) && FieldsOf(left).Keys == FieldsOf(right).Keys
    requires forall key :: key in FieldsOf(left) ==> Normal(FieldsOf(left)[key]) == Normal(FieldsOf(right)[key])
    ensures Normal(left) == Normal(right)
  {
    NormalFields(left);
    NormalFields(right);
    hide FieldsOf, Normal;
    SameMaps(Normal(left).fields, Normal(right).fields);
  }

  lemma {:induction false} SameMaps(a: Fields, b: Fields)
    requires a.Keys == b.Keys && forall key :: key in a ==> a[key] == b[key]
    ensures a == b
  {
    assert forall key :: key in a <==> key in a.Keys;
  }

  lemma {:induction false} KeysAreDigits(i: nat)
    ensures '0' <= Key(i)[0] <= '9'
  {
    if i >= 10 {
      KeysAreDigits(i / 10);
    }
  }

  lemma {:induction false} LengthIsNoIndex(items: seq<Value>)
    ensures LENGTH !in ListFields(items)
  {
    if LENGTH in ListFields(items) {
      var i := FieldIsItem(items, LENGTH);
      KeysAreDigits(i);
      assert false;
    }
  }

  // ---------------------------------------------------------------- when the comparison is right

  /** The list that an object which imitates one would be taken for. */
  ghost function ImitatedItems(fields: Fields): (items: seq<Value>)
    ensures |items| == |fields|
    ensures forall i :: 0 <= i < |items| ==> items[i] == if Key(i) in fields then fields[Key(i)] else Absent
  {
    seq(|fields|, i requires 0 <= i < |fields| => if Key(i) in fields then fields[Key(i)] else Absent)
  }

  lemma {:induction false} ImitatedListEquals(fields: Fields)
    requires ImitatesList(fields)
    ensures ValuesEqual(Rec(fields), List(ImitatedItems(fields)))
    ensures Normal(Rec(fields)) != Normal(List(ImitatedItems(fields)))
  {
    hide ListFields;
    var items := ImitatedItems(fields);
    ListFieldsCount(items);
    LengthIsNoIndex(items);
    forall key | key in fields
      ensures HasOwn(List(items), key) && ValuesEqual(fields[key], Own(List(items), key))
    {
      if key != LENGTH {
        var i: nat :| i < |fields| && key == Key(i);
        ListFieldsAt(items, i);
      }
      ValuesEqualSelf(fields[key]);
    }
    NormalFields(Rec(fields));
    NormalFields(List(items));
    assert LENGTH in Normal(Rec(fields)).fields;
  }

  /** What is not clear compares equal to something it is not the same as. */
  lemma {:induction false} ImpostorOf(left: Value) returns (right: Value)
    requires !Clear(left)
    ensures ValuesEqual(left, right) && Normal(left) != Normal(right)
    decreases left
  {
    if left.List? {
      var i :| 0 <= i < |left.items| && !Clear(left.items[i]);
      var inner := ImpostorOf(left.items[i]);
      right := List(left.items[i := inner]);
      ReplaceItem(left.items, i, inner);
    } else if ImitatesList(left.fields) {
      right := List(ImitatedItems(left.fields));
      ImitatedListEquals(left.fields);
    } else {
      var key :| key in left.fields && !Clear(left.fields[key]);
      var inner := ImpostorOf(left.fields[key]);
      right := Rec(left.fields[key := inner]);
      ReplaceField(left.fields, key, inner);
    }
  }

  lemma {:induction false} ReplaceItem(items: seq<Value>, i: nat, inner: Value)
    requires i < |items| && ValuesEqual(items[i], inner) && Normal(items[i]) != Normal(inner)
    ensures ValuesEqual(List(items), List(items[i := inner]))
    ensures Normal(List(items)) != Normal(List(items[i := inner]))
  {
    hide NormalList, Key;
    forall k | 0 <= k < |items|
      ensures ValuesEqual(items[k], items[i := inner][k])
    {
      ValuesEqualSelf(items[k]);
    }
    NormalListAt(items, i);
    NormalListAt(items[i := inner], i);
  }

  lemma {:induction false} ReplaceField(fields: Fields, key: string, inner: Value)
    requires key in fields && ValuesEqual(fields[key], inner) && Normal(fields[key]) != Normal(inner)
    ensures ValuesEqual(Rec(fields), Rec(fields[key := inner]))
    ensures Normal(Rec(fields)) != Normal(Rec(fields[key := inner]))
  {
    NormalOther(fields, fields[key := inner], key);
    hide Normal;
    var after := fields[key := inner];
    assert after.Keys == fields.Keys;
    assert |after| == |after.Keys| == |fields.Keys| == |fields|;
    forall k | k in fields
      ensures ValuesEqual(fields[k], after[k])
    {
      ValuesEqualSelf(fields[k]);
    }
  }

  lemma {:induction false} NormalOther(fields: Fields, after: Fields, key: string)
    requires key in fields && key in after && Normal(fields[key]) != Normal(after[key])
    ensures Normal(Rec(fields)) != Normal(Rec(after))
  {
    assert Normal(Rec(fields)).fields[key] == Normal(fields[key]);
    assert Normal(Rec(after)).fields[key] == Normal(after[key]);
  }

  /**
   The comparison of a value with any other says yes exactly to those that are the same up to lists written as
   objects, iff no object in the value could be taken for a list.
   */
  lemma {:induction false} ValuesEqualIff(left: Value)
    ensures
      (forall right :: ValuesEqual(left, right) <==> Normal(left) == Normal(right)) <==>
      Clear(left)
  {
    hide ValuesEqual, Normal, Clear;
    if Clear(left) {
      forall right
        ensures ValuesEqual(left, right) <==> Normal(left) == Normal(right)
      {
        if ValuesEqual(left, right) {
          SameWhenEqual(left, right);
        }
        if Normal(left) == Normal(right) {
          EqualWhenSame(left, right);
        }
      }
    } else {
      var impostor := ImpostorOf(left);
    }
  }

  /** A plain value, or a list of plain values: all that a setting of the page displays. */
  predicate Flat(v: Value) {
    !v.Rec? && (v.List? ==> forall i :: 0 <= i < |v.items| ==> !IsObject(v.items[i]))
  }

  /** On such values the comparison is equality. */
  lemma {:induction false} FlatValuesEqualIff(left: Value, right: Value)
    requires Flat(left) && Flat(right)
    ensures Clear(left)
    ensures ValuesEqual(left, right) <==> left == right
  {
  }

  /** The smallest object that imitates a list: it compares equal to any list of one item, and not the other way round. */
  lemma {:induction false} LengthLooksLikeList(item: Value)
    ensures
      var left, right := Rec(map[LENGTH := Num(Finite(1.0))]), List([item]);
      ValuesEqual(left, right) && !ValuesEqual(right, left) && Normal(left) != Normal(right)
  {
    var left, right := Rec(map[LENGTH := Num(Finite(1.0))]), List([item]);
    OneItem(item);
    hide ListFields, Key, NormalList;
    KeysAreDigits(0);
    assert Own(right, LENGTH) == Num(Finite(1.0));
    NormalFields(left);
    NormalFields(right);
    assert LENGTH in Normal(left).fields && LENGTH !in Normal(right).fields;
  }

  lemma {:induction false} OneItem(item: Value)
    ensures ListFields([item]).Keys == {Key(0)} && |ListFields([item])| == 1
    ensures Key(0) != LENGTH
  {
    ListFieldsCount([item]);
    KeysAreDigits(0);
  }

  lemma {:induction false} ValuesEqualSelf(v: Value)
    ensures ValuesEqual(v, v)
  {
    EqualWhenSame(v, v);
  }
}
