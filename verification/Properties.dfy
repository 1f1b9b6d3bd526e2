/** The property map: an array of items sorted by key. */
module Properties {
  import opened DxArrays
  import opened Pointers

  datatype Item = Item(key: string, value: string)

  // ---------- the order of strings ----------

  /** wcscmp, as far as its sign goes */
  function Compare(a: string, b: string): int {
    if a == [] then if b == [] then 0 else -1
    else if b == [] then 1
    else if a[0] == b[0] then Compare(a[1..], b[1..])
    else if a[0] < b[0] then -1 else 1
  }

  lemma {:induction false} CompareEqual(a: string, b: string)
    ensures Compare(a, b) == 0 <==> a == b
  {
    if a != [] && b != [] {
      CompareEqual(a[1..], b[1..]);
      assert a == [a[0]] + a[1..] && b == [b[0]] + b[1..];
    }
  }

  lemma {:induction false} CompareTurned(a: string, b: string)
    ensures Compare(a, b) < 0 <==> Compare(b, a) > 0
  {
    if a != [] && b != [] {
      CompareTurned(a[1..], b[1..]);
    }
  }

  /** The first place where two strings differ decides, and a string comes before those it is a prefix of. */
  lemma {:induction false} CompareAt(a: string, b: string, k: nat)
    requires k <= |a| && k < |b| && a[..k] == b[..k] && (k < |a| ==> a[k] < b[k])
    ensures Compare(a, b) < 0
  {
    if k > 0 {
      assert a[0] == a[..k][0] == b[..k][0] == b[0];
      assert a[1..][..k - 1] == a[..k][1..] == b[..k][1..] == b[1..][..k - 1];
      CompareAt(a[1..], b[1..], k - 1);
    }
  }

  lemma {:induction false} CompareTransitive(a: string, b: string, c: string)
    requires Compare(a, b) <= 0 && Compare(b, c) <= 0
    ensures Compare(a, c) <= 0 && (Compare(a, b) < 0 || Compare(b, c) < 0 ==> Compare(a, c) < 0)
  {
    if a != [] && b != [] && c != [] {
      if a[0] == b[0] == c[0] {
        CompareTransitive(a[1..], b[1..], c[1..]);
      }
    }
  }

  // ---------- sorted items and the map they stand for ----------

  ghost predicate KeysAscend(items: seq<Item>) {
    forall i, j :: 0 <= i < j < |items| ==> Compare(items[i].key, items[j].key) < 0
  }

  /** Later items win, which is immaterial for items with distinct keys. */
  function AsMap(items: seq<Item>): map<string, string> {
    if items == [] then map[]
    else AsMap(items[..|items| - 1])[items[|items| - 1].key := items[|items| - 1].value]
  }

  predicate HasKey(items: seq<Item>, key: string) {
    exists i :: 0 <= i < |items| && items[i].key == key
  }

  lemma {:induction false} KeysOfMap(items: seq<Item>, key: string)
    ensures key in AsMap(items) <==> HasKey(items, key)
  {
    if items != [] {
      var n := |items| - 1;
      KeysOfMap(items[..n], key);
      if HasKey(items[..n], key) {
        var i :| 0 <= i < n && items[..n][i].key == key;
        assert items[i].key == key;
      }
      if HasKey(items, key) && items[n].key != key {
        var i :| 0 <= i < |items| && items[i].key == key;
        assert items[..n][i].key == key;
      }
    }
  }

  /** A sorted array holds the value of each of its keys. */
  lemma {:induction false} ValueInMap(items: seq<Item>, i: nat)
    requires KeysAscend(items) && i < |items|
    ensures items[i].key in AsMap(items) && AsMap(items)[items[i].key] == items[i].value
  {
    var n := |items| - 1;
    if i < n {
      ValueInMap(items[..n], i);
      CompareEqual(items[i].key, items[n].key);
    }
  }

  lemma {:induction false} MapOfConcat(a: seq<Item>, b: seq<Item>)
    ensures AsMap(a + b) == AsMap(a) + AsMap(b)
  {
    if b == [] {
      assert a + b == a;
    } else {
      assert (a + b)[..|a + b| - 1] == a + b[..|b| - 1];
      MapOfConcat(a, b[..|b| - 1]);
    }
  }

  lemma MapOfInserted(a: seq<Item>, item: Item, b: seq<Item>)
    requires !HasKey(b, item.key)
    ensures AsMap(a + [item] + b) == AsMap(a + b)[item.key := item.value]
  {
    hide AsMap;
    MapOfConcat(a + [item], b);
    MapOfConcat(a, [item]);
    MapOfConcat(a, b);
    KeysOfMap(b, item.key);
    MapOfOne(item);
  }

  lemma MapOfOne(item: Item)
    ensures AsMap([item]) == map[item.key := item.value]
  {
    assert [item][..0] == [];
  }

  lemma MapOfChanged(items: seq<Item>, at: nat, value: string)
    requires KeysAscend(items) && at < |items|
    ensures AsMap(items[at := Item(items[at].key, value)]) == AsMap(items)[items[at].key := value]
  {
    var a, b, key := items[..at], items[at + 1..], items[at].key;
    if HasKey(b, key) {
      var i :| 0 <= i < |b| && b[i].key == key;
      CompareEqual(items[at].key, items[at + 1 + i].key);
      assert false;
    }
    assert items == a + [items[at]] + b;
    assert items[at := Item(key, value)] == a + [Item(key, value)] + b;
    MapOfInserted(a, items[at], b);
    MapOfInserted(a, Item(key, value), b);
  }

  lemma InsertedAscend(items: seq<Item>, item: Item, at: nat)
    requires KeysAscend(items) && at <= |items|
    requires forall i :: 0 <= i < at ==> Compare(items[i].key, item.key) < 0
    requires forall i :: at <= i < |items| ==> Compare(items[i].key, item.key) > 0
    ensures KeysAscend(items[..at] + [item] + items[at..])
    ensures !HasKey(items[at..], item.key)
  {
    forall i | at <= i < |items| ensures Compare(item.key, items[i].key) < 0 {
      CompareTurned(item.key, items[i].key);
    }
    forall i | 0 <= i < |items[at..]| ensures items[at..][i].key != item.key {
      CompareEqual(items[at + i].key, item.key);
    }
  }

  /** Keys that ascend are in order for the search of any key. */
  lemma OrderedForKey(items: seq<Item>, key: string)
    requires KeysAscend(items)
    ensures OrderedFor(items, (item: Item) => Compare(item.key, key), 0, |items|)
  {
    var cmp := (item: Item) => Compare(item.key, key);
    forall i, j | 0 <= i < j < |items| && cmp(items[i]) >= 0 ensures cmp(items[j]) > 0 {
      AfterNotBefore(items[i].key, items[j].key, key);
    }
    forall i, j | 0 <= i < j < |items| && cmp(items[j]) <= 0 ensures cmp(items[i]) < 0 {
      CompareTransitive(items[i].key, items[j].key, key);
    }
  }

  lemma AfterNotBefore(a: string, b: string, key: string)
    requires Compare(a, b) < 0 && Compare(a, key) >= 0
    ensures Compare(b, key) > 0
  {
    CompareTurned(a, key);
    CompareTurned(b, key);
    CompareTurned(key, b);
    CompareTurned(key, a);
    CompareEqual(a, key);
    CompareEqual(key, a);
    CompareTransitive(key, a, b);
  }

  class PropertyMap {
    const items: DxArray<Item>

    ghost predicate Valid()
      reads this, items, items.elements
    {
      items.Valid() && KeysAscend(items.Contents())
    }

    ghost function Contents(): map<string, string>
      reads this, items, items.elements
      requires Valid()
    {
      AsMap(items.Contents())
    }

    constructor ()
      ensures Valid() && Contents() == map[] && fresh(items) && fresh(items.elements)
    {
      items := new DxArray();
    }

    /** The binary search of a key */
    method Find(key: string) returns (found: bool, index: nat)
      requires Valid()
      ensures index <= items.size
      ensures found ==> index < items.size && items.Contents()[index].key == key
      ensures found <==> key in Contents()
      ensures forall i :: 0 <= i < index ==> Compare(items.Contents()[i].key, key) < 0
      ensures forall i :: index <= i < items.size && !found ==> Compare(items.Contents()[i].key, key) > 0
    {
      var all := items.elements[..items.size];
      OrderedForKey(all, key);
      found, index := BinarySearch(all, 0, items.size, (item: Item) => Compare(item.key, key));
      KeysOfMap(all, key);
      if found {
        CompareEqual(all[index].key, key);
      } else {
        forall i | 0 <= i < |all| ensures all[i].key != key { CompareEqual(all[i].key, key); }
      }
    }

    /** dx_property_map_set */
    method Set(key: Nullable<string>, value: Nullable<string>) returns (ok: bool)
      requires Valid()
      modifies items, items.elements
      ensures Valid() && (items.elements == old(items.elements) || fresh(items.elements))
      ensures ok <==> key.Some? && value.Some?
      ensures Contents() == if ok then old(Contents())[key.value := value.value] else old(Contents())
    {
      if key.Null? || value.Null? {
        return false;
      }
      var found, index := Find(key.value);
      ghost var was := items.Contents();
      if found {
        MapOfChanged(was, index, value.value);
        ValueInMap(was, index);
        if items.elements[index].value == value.value {
          assert was[index := Item(was[index].key, value.value)] == was;
          return true;
        }
        items.elements[index] := Item(items.elements[index].key, value.value);
        assert items.Contents() == was[index := Item(was[index].key, value.value)];
      } else {
        InsertedAscend(was, Item(key.value, value.value), index);
        MapOfInserted(was[..index], Item(key.value, value.value), was[index..]);
        assert was[..index] + was[index..] == was;
        items.Insert(Item(key.value, value.value), index);
      }
      ok := true;
    }

    /** dx_property_map_contains */
    method Contains(key: Nullable<string>) returns (found: bool)
      requires Valid()
      ensures found <==> key.Some? && key.value in Contents()
    {
      if key.Null? {
        return false;
      }
      var index;
      found, index := Find(key.value);
    }

    /** dx_property_map_try_get_value, with a place for the value */
    method TryGetValue(key: Nullable<string>) returns (found: bool, value: string)
      requires Valid()
      ensures found <==> key.Some? && key.value in Contents()
      ensures found ==> value == Contents()[key.value]
    {
      value := "";
      if key.Null? {
        return false, value;
      }
      var index;
      found, index := Find(key.value);
      if found {
        ValueInMap(items.Contents(), index);
        value := items.elements[index].value;
      }
    }

    /** dx_property_map_free_collection */
    method Free()
      requires Valid()
      modifies items
      ensures Valid() && items.size == 0 && Contents() == map[] && fresh(items.elements)
    {
      items.elements := new Item[0];
      items.size := 0;
      items.capacity := 0;
    }
  }

  /** dx_property_map_clone: the destination is freed first, so that a map cloned into itself is lost;
      otherwise it becomes an equal map with an array of its own. */
  method Clone(src: PropertyMap, dest: PropertyMap)
    requires src.Valid() && dest.Valid() && (src == dest || src.items != dest.items)
    modifies dest.items
    ensures src.Valid() && dest.Valid() && fresh(dest.items.elements)
    ensures src != dest ==> dest.items.Contents() == old(src.items.Contents()) == src.items.Contents()
    ensures dest.Contents() == if src == dest then map[] else old(src.Contents())
  {
    dest.Free();
    dest.items.Reserve(src.items.size);
    var i: nat := 0;
    while i < src.items.size
      invariant i <= src.items.size == dest.items.size && src.Valid() && dest.items.Valid()
      invariant fresh(dest.items.elements)
      invariant src != dest ==> src.items.Contents() == old(src.items.Contents())
      invariant src == dest ==> src.items.size == 0
      invariant dest.items.elements[..i] == src.items.elements[..i]
    {
      dest.items.elements[i] := src.items.elements[i];
      i := i + 1;
    }
  }

  /** dx_property_map_set_many: the other map overrides, also when it is the map itself. */
  method SetMany(props: PropertyMap, other: PropertyMap) returns (ok: bool)
    requires props.Valid() && other.Valid()
    modifies props.items
    ensures props.Valid() && fresh(props.items.elements)
    ensures ok && props.Contents() == old(props.Contents()) + old(other.Contents())
  {
    hide KeysAscend, AsMap;
    var temp := new PropertyMap();
    Clone(props, temp);
    ok := SetAll(temp, other);
    props.items.elements := temp.items.elements;
    props.items.size := temp.items.size;
    props.items.capacity := temp.items.capacity;
  }

  /** The loop of dx_property_map_set_many */
  method SetAll(temp: PropertyMap, other: PropertyMap) returns (ok: bool)
    requires temp.Valid() && other.Valid() && temp.items != other.items && temp.items.elements != other.items.elements
    modifies temp.items, temp.items.elements
    ensures temp.Valid() && (temp.items.elements == old(temp.items.elements) || fresh(temp.items.elements))
    ensures ok && temp.Contents() == old(temp.Contents()) + other.Contents()
  {
    hide KeysAscend, AsMap;
    ok := true;
    ghost var all, was := other.items.Contents(), temp.Contents();
    OverriddenByNone(all, was);
    var i: nat := 0;
    while i < other.items.size
      invariant i <= other.items.size && ok && other.items.Valid() && other.items.Contents() == all
      invariant temp.Valid() && (temp.items.elements == old(temp.items.elements) || fresh(temp.items.elements))
      invariant temp.Contents() == was + AsMap(all[..i])
    {
      OverriddenByOneMore(all, i, was);
      var item := other.items.elements[i];
      ok := temp.Set(Some(item.key), Some(item.value));
      if !ok {
        return;
      }
      i := i + 1;
    }
    assert all[..i] == all;
  }

  lemma OverriddenByNone(all: seq<Item>, m: map<string, string>)
    ensures m + AsMap(all[..0]) == m
  {}

  lemma OverriddenByOneMore(all: seq<Item>, i: nat, m: map<string, string>)
    requires i < |all|
    ensures m + AsMap(all[..i + 1]) == (m + AsMap(all[..i]))[all[i].key := all[i].value]
  {
    assert all[..i + 1][..i] == all[..i];
  }
}
