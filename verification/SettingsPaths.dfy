/** Reading, writing and deleting by path, and what a write leaves alone. */
module SettingsPaths {
  import opened SettingsValues

  /** Reading a member of anything; what is no object has none. */
  function Member(v: Value, part: string): Value {
    if IsObject(v) then Own(v, part) else Absent
  }

  function ValueAt(v: Value, path: seq<string>): Value
    decreases |path|
  {
    if path == [] then v else ValueAt(Member(v, path[0]), path[1..])
  }

  /** The object standing under a key, or an empty one in place of anything else. */
  function ChildRec(fields: Fields, part: string): Fields {
    if part in fields && fields[part].Rec? then fields[part].fields else map[]
  }

  function SetAt(fields: Fields, path: Path, value: Value): Fields
    decreases |path|
  {
    if |path| == 1 then fields[path[0] := value]
    else fields[path[0] := Rec(SetAt(ChildRec(fields, path[0]), path[1..], value))]
  }

  function DeleteAt(fields: Fields, path: Path): Fields
    decreases |path|
  {
    if |path| == 1 then fields - {path[0]}
    else if path[0] in fields && fields[path[0]].Rec?
    then fields[path[0] := Rec(DeleteAt(fields[path[0]].fields, path[1..]))]
    else fields
  }

  function ValueIn(fields: Fields, path: Path): Value {
    ValueAt(Rec(fields), path)
  }

  /** Neither path lies above the other, and they are not the same. */
  predicate Unrelated(p: Path, q: Path) {
    !(p <= q) && !(q <= p)
  }

  /** Nothing can be read out of the list but its length. */
  predicate HoldsNothing(items: seq<Value>) {
    forall i :: 0 <= i < |items| ==> items[i].Absent?
  }

  /**
   No list stands strictly above the end of the path, but for one that holds nothing where the path goes on
   with the name of its length.
   */
  predicate NoListInTheWay(fields: Fields, path: Path)
    decreases |path|
  {
    |path| == 1 || path[0] !in fields ||
    if fields[path[0]].List? then path[1] == LENGTH && HoldsNothing(fields[path[0]].items)
    else NoListInTheWay(ChildRec(fields, path[0]), path[1..])
  }

  lemma {:induction false} UnrelatedTails(p: Path, q: Path)
    requires Unrelated(p, q) && p[0] == q[0]
    ensures |p| > 1 && |q| > 1 && Unrelated(p[1..], q[1..])
  {
    assert p == [p[0]] + p[1..] && q == [q[0]] + q[1..];
  }

  // ---------------------------------------------------------------- writing

  lemma {:induction false} ReadOne(fields: Fields, path: Path)
    requires |path| == 1 && path[0] in fields
    ensures ValueIn(fields, path) == fields[path[0]]
  {
    assert path[1..] == [];
    assert ValueAt(fields[path[0]], []) == fields[path[0]];
  }

  lemma {:induction false} SetThenGet(fields: Fields, path: Path, value: Value)
    ensures ValueIn(SetAt(fields, path, value), path) == value
    decreases |path|
  {
    hide ListFields;
    if |path| > 1 {
      SetThenGet(ChildRec(fields, path[0]), path[1..], value);
    } else {
      ReadOne(SetAt(fields, path, value), path);
    }
  }

  lemma {:induction false} NothingBelow(v: Value, path: Path)
    requires !IsObject(v)
    ensures ValueAt(v, path) == Absent
  {
    AbsentBelow(path[1..]);
  }

  lemma {:induction false} AbsentBelow(path: seq<string>)
    ensures ValueAt(Absent, path) == Absent
    decreases |path|
  {
    if path != [] {
      AbsentBelow(path[1..]);
    }
  }

  /** Below a key that holds no list, reading is reading in the object that a write would go on with. */
  lemma {:induction false} ChildReads(fields: Fields, path: Path)
    requires |path| > 1 && (path[0] in fields ==> !fields[path[0]].List?)
    ensures ValueIn(fields, path) == ValueIn(ChildRec(fields, path[0]), path[1..])
  {
    var child := Member(Rec(fields), path[0]);
    if !child.Rec? {
      NothingBelow(child, path[1..]);
      assert Member(Rec(map[]), path[1]) == Absent;
      AbsentBelow(path[2..]);
      assert path[1..][1..] == path[2..];
    }
  }

  /** The same for such a list, along a path unrelated to one through its length. */
  lemma {:induction false} EmptyListReads(fields: Fields, path: Path, other: Path)
    requires |path| > 1 && path[0] in fields && fields[path[0]].List? && NoListInTheWay(fields, path)
    requires Unrelated(path, other) && path[0] == other[0]
    ensures ValueIn(fields, other) == ValueIn(ChildRec(fields, path[0]), other[1..])
  {
    var list, below := fields[path[0]], other[1..];
    UnrelatedTails(path, other);
    assert Member(Rec(fields), other[0]) == list;
    assert ValueIn(fields, other) == ValueAt(list, below);
    assert ValueAt(list, below) == ValueAt(Member(list, below[0]), below[1..]);
    assert Member(Rec(map[]), below[0]) == Absent;
    AbsentBelow(below[1..]);
    if below[0] == LENGTH {
      UnrelatedTails(path[1..], below);
      LengthIsNoIndex(list.items);
      NothingBelow(Member(list, LENGTH), below[1..]);
    } else if below[0] in ListFields(list.items) {
      var i := FieldIsItem(list.items, below[0]);
    }
  }

  /** A write with no list in the way leaves every unrelated path alone. */
  lemma {:induction false} SetLeavesOthers(fields: Fields, path: Path, value: Value, other: Path)
    requires Unrelated(path, other) && NoListInTheWay(fields, path)
    ensures ValueIn(SetAt(fields, path, value), other) == ValueIn(fields, other)
    decreases |path|
  {
    hide ListFields;
    var after := SetAt(fields, path, value);
    if path[0] == other[0] {
      UnrelatedTails(path, other);
      if path[0] in fields && fields[path[0]].List? {
        EmptyListReads(fields, path, other);
        NoListInNothing(path[1..]);
      } else {
        ChildReads(fields, other);
      }
      SetLeavesOthers(ChildRec(fields, path[0]), path[1..], value, other[1..]);
      ChildReads(after, other);
    } else {
      assert Member(Rec(after), other[0]) == Member(Rec(fields), other[0]);
    }
  }

  lemma {:induction false} SetKeepsNoList(fields: Fields, path: Path, value: Value, other: Path)
    requires Unrelated(path, other) && NoListInTheWay(fields, other)
    ensures NoListInTheWay(SetAt(fields, path, value), other)
    decreases |path|
  {
    if path[0] == other[0] {
      UnrelatedTails(path, other);
      NoListInNothing(other[1..]);
      SetKeepsNoList(ChildRec(fields, path[0]), path[1..], value, other[1..]);
    }
  }

  lemma {:induction false} NoListInNothing(path: Path)
    ensures NoListInTheWay(map[], path)
  {
  }

  /** A list in the way is replaced, and its length is lost, or an item of it if the path asks for the length. */
  lemma {:induction false} ListAboveIsLost(fields: Fields, path: Path, value: Value) returns (lost: Path)
    requires !NoListInTheWay(fields, path)
    ensures Unrelated(path, lost)
    ensures ValueIn(SetAt(fields, path, value), lost) != ValueIn(fields, lost)
    decreases |path|
  {
    hide ListFields, Key;
    var head, tail := path[0], path[1..];
    if fields[head].List? {
      var part := LENGTH;
      if tail[0] == LENGTH {
        var i :| 0 <= i < |fields[head].items| && !fields[head].items[i].Absent?;
        part := Key(i);
        ListFieldsAt(fields[head].items, i);
        KeysAreDigits(i);
      } else {
        ListHasLength(fields[head]);
      }
      lost := [head, part];
      assert path[1] == tail[0] && lost[1] == part;
      ReadTwo(fields, head, part);
      ReadTwo(SetAt(fields, path, value), head, part);
      OnlyItsTop(tail, value, part);
    } else {
      NoListInNothing(tail);
      var below := ListAboveIsLost(ChildRec(fields, head), tail, value);
      lost := [head] + below;
      assert lost[1..] == below;
      assert path == [head] + tail;
    }
  }

  /** A write into an empty object gives it one key. */
  lemma {:induction false} OnlyItsTop(path: Path, value: Value, part: string)
    requires part != path[0]
    ensures Member(Rec(SetAt(map[], path, value)), part) == Absent
  {
  }

  lemma {:induction false} ReadTwo(fields: Fields, first: string, second: string)
    requires first in fields
    ensures ValueIn(fields, [first, second]) == Member(fields[first], second)
  {
    assert [first, second][1..] == [second] && [second][1..] == [];
    assert ValueAt(fields[first], [second]) == ValueAt(Member(fields[first], second), []);
  }

  lemma {:induction false} ListHasLength(v: Value)
    requires v.List?
    ensures Member(v, LENGTH) != Absent
  {
    if LENGTH in FieldsOf(v) {
      LengthIsNoIndex(v.items);
    }
  }

  /** A write leaves every unrelated path alone iff no list stands in the way. */
  lemma {:induction false} SetLeavesOthersIff(fields: Fields, path: Path, value: Value)
    ensures
      NoListInTheWay(fields, path) <==>
      forall other: Path :: Unrelated(path, other) ==> ValueIn(SetAt(fields, path, value), other) == ValueIn(fields, other)
  {
    hide SetAt, NoListInTheWay, ValueIn;
    if NoListInTheWay(fields, path) {
      forall other: Path | Unrelated(path, other)
        ensures ValueIn(SetAt(fields, path, value), other) == ValueIn(fields, other)
      {
        SetLeavesOthers(fields, path, value, other);
      }
    } else {
      var lost := ListAboveIsLost(fields, path, value);
    }
  }

  // ---------------------------------------------------------------- deleting

  lemma {:induction false} DeleteLeavesOthers(fields: Fields, path: Path, other: Path)
    requires Unrelated(path, other)
    ensures ValueIn(DeleteAt(fields, path), other) == ValueIn(fields, other)
    decreases |path|
  {
    hide ListFields;
    var after := DeleteAt(fields, path);
    if path[0] == other[0] {
      UnrelatedTails(path, other);
      if path[0] in fields && fields[path[0]].Rec? {
        DeleteLeavesOthers(fields[path[0]].fields, path[1..], other[1..]);
        ChildReads(fields, other);
        ChildReads(after, other);
      }
    } else {
      assert Member(Rec(after), other[0]) == Member(Rec(fields), other[0]);
    }
  }

  // ---------------------------------------------------------------- many writes

  datatype Write = Write(path: Path, value: Value)

  function SetAll(fields: Fields, writes: seq<Write>): Fields {
    if writes == [] then fields
    else
      var last := writes[|writes| - 1];
      SetAt(SetAll(fields, writes[..|writes| - 1]), last.path, last.value)
  }

  ghost predicate Apart(writes: seq<Write>) {
    forall i, j :: 0 <= i < j < |writes| ==> Unrelated(writes[i].path, writes[j].path)
  }

  ghost predicate NoLists(fields: Fields, writes: seq<Write>) {
    forall i :: 0 <= i < |writes| ==> NoListInTheWay(fields, writes[i].path)
  }

  ghost predicate ApartFrom(writes: seq<Write>, other: Path) {
    forall i :: 0 <= i < |writes| ==> Unrelated(writes[i].path, other)
  }

  lemma {:induction false} SetAllKeepsNoList(fields: Fields, writes: seq<Write>, other: Path)
    requires ApartFrom(writes, other) && NoListInTheWay(fields, other)
    ensures NoListInTheWay(SetAll(fields, writes), other)
  {
    hide SetAt, NoListInTheWay;
    if writes != [] {
      var before, last := writes[..|writes| - 1], writes[|writes| - 1];
      SetAllKeepsNoList(fields, before, other);
      SetKeepsNoList(SetAll(fields, before), last.path, last.value, other);
    }
  }

  /** Writes that are apart from each other leave every path apart from them alone. */
  lemma {:induction false} SetAllLeavesOthers(fields: Fields, writes: seq<Write>, other: Path)
    requires Apart(writes) && NoLists(fields, writes) && ApartFrom(writes, other)
    ensures ValueIn(SetAll(fields, writes), other) == ValueIn(fields, other)
  {
    hide SetAt, NoListInTheWay, ValueIn;
    if writes != [] {
      var before, last := writes[..|writes| - 1], writes[|writes| - 1];
      SetAllLeavesOthers(fields, before, other);
      SetAllKeepsNoList(fields, before, last.path);
      SetLeavesOthers(SetAll(fields, before), last.path, last.value, other);
    }
  }

  /** And each of them ends up in its place. */
  lemma {:induction false} SetAllSets(fields: Fields, writes: seq<Write>, i: nat)
    requires Apart(writes) && NoLists(fields, writes) && i < |writes|
    ensures ValueIn(SetAll(fields, writes), writes[i].path) == writes[i].value
  {
    hide SetAt, NoListInTheWay, ValueIn;
    var before, last := writes[..|writes| - 1], writes[|writes| - 1];
    if i == |writes| - 1 {
      SetThenGet(SetAll(fields, before), last.path, last.value);
    } else {
      SetAllSets(fields, before, i);
      SetAllKeepsNoList(fields, before, last.path);
      assert Unrelated(before[i].path, last.path);
      SetLeavesOthers(SetAll(fields, before), last.path, last.value, writes[i].path);
    }
  }
}
