/** The property bag of Source/PropertyBag.cpp: values under names whose case does not matter, in a sorted array. */
module PropertyBags {
  import opened Bytes
  import opened Sequences
  import opened ArrayLists
  import opened Names

  datatype Result = Ok | Pointer | InvalidArgument | OutOfMemory | NotFound | Fail

  /** A string that may be a null pointer. */
  datatype Text = NoText | Text(s: string)

  datatype Kind = Undefined | Null | DWord | QWord | AnsiString | WideString | Double

  datatype Value =
    | NullValue
    | DWordValue(dw: nat)
    | QWordValue(qw: nat)
    | DoubleValue(d: real)
    | AnsiValue(a: Text)
    | WideValue(w: Text)

  datatype Property = Property(name: string, value: Value)

  function KindOf(v: Value): Kind {
    match v
    case NullValue => Null
    case DWordValue(_) => DWord
    case QWordValue(_) => QWord
    case DoubleValue(_) => Double
    case AnsiValue(_) => AnsiString
    case WideValue(_) => WideString
  }

  /** The getter for this kind returns the value. */
  predicate Fits(kind: Kind, v: Value) {
    match kind
    case Undefined => false
    case Null => v.NullValue?
    case DWord => v.DWordValue?
    case QWord => v.QWordValue?
    case AnsiString => v.AnsiValue?
    case WideString => v.WideValue?
    case Double => v.DoubleValue?
  }

  lemma KindFits(v: Value, kind: Kind)
    ensures Fits(kind, v) <==> KindOf(v) == kind
  {
  }

  /** SetString refuses a null pointer. */
  predicate Refused(v: Value) {
    (v.AnsiValue? && v.a == NoText) || (v.WideValue? && v.w == NoText)
  }

  function ByName(p: Property, q: Property): int {
    StrCompareA(p.name, q.name)
  }

  lemma ByNameOrders(all: set<Property>)
    ensures Orders(ByName, all)
  {
    forall p, q | p in all && q in all ensures FlipsAt(ByName, p, q) {
      NamesAreOrdered(p.name, q.name, q.name);
      NamesAreOrdered(q.name, p.name, p.name);
    }
    forall p, q, r | p in all && q in all && r in all ensures TransitiveAt(ByName, p, q, r) {
      NamesAreOrdered(p.name, q.name, r.name);
    }
  }

  /** The entries are those of the properties, by key. */
  ghost predicate Lists(props: seq<Property>, entries: map<string, Property>) {
    && (forall i :: 0 <= i < |props| ==> KeyOf(props[i].name) in entries && entries[KeyOf(props[i].name)] == props[i])
    && (forall k :: k in entries ==> exists i :: 0 <= i < |props| && KeyOf(props[i].name) == k)
  }

  /** A strictly sorted array can be searched for a name. */
  lemma Searchable(props: seq<Property>, name: string)
    requires StrictlySorted(props, ByName)
    ensures Falling(props, Probe(ByName, Property(name, NullValue)))
    ensures forall i :: 0 <= i < |props| ==>
            (ByName(Property(name, NullValue), props[i]) == 0 <==> KeyOf(props[i].name) == KeyOf(name))
    ensures forall i :: 0 <= i < |props| ==> (KeyOf(props[i].name) == KeyOf(name) <==> SameName(name, props[i].name))
  {
    var x := Property(name, NullValue);
    var all := (set p | p in props) + {x};
    ByNameOrders(all);
    SortedFalls(props, ByName, x, all);
    forall i | 0 <= i < |props|
      ensures ByName(x, props[i]) == 0 <==> KeyOf(props[i].name) == KeyOf(name)
      ensures KeyOf(props[i].name) == KeyOf(name) <==> SameName(name, props[i].name)
    {
      NamesAreOrdered(name, props[i].name, name);
      SameKeys(name, props[i].name);
    }
  }

  ghost predicate DistinctKeys(props: seq<Property>) {
    forall i, j :: 0 <= i < j < |props| ==> KeyOf(props[i].name) != KeyOf(props[j].name)
  }

  lemma SortedIsDistinct(props: seq<Property>)
    requires StrictlySorted(props, ByName)
    ensures DistinctKeys(props)
  {
    forall i, j | 0 <= i < j < |props| ensures KeyOf(props[i].name) != KeyOf(props[j].name) {
      NamesAreOrdered(props[i].name, props[j].name, props[j].name);
      assert ByName(props[i], props[j]) < 0;
    }
  }

  lemma ListsReplace(props: seq<Property>, entries: map<string, Property>, i: nat, p: Property)
    requires DistinctKeys(props) && Lists(props, entries) && i < |props| && KeyOf(p.name) == KeyOf(props[i].name)
    ensures Lists(props[i := p], entries[KeyOf(p.name) := p])
  {
    var after, entries' := props[i := p], entries[KeyOf(p.name) := p];
    forall k | k in entries' ensures exists j :: 0 <= j < |after| && KeyOf(after[j].name) == k {
      var j :| 0 <= j < |props| && KeyOf(props[j].name) == k;
      assert KeyOf(after[j].name) == k;
    }
  }

  lemma ListsInsert(props: seq<Property>, entries: map<string, Property>, p: Property, k: nat)
    requires Lists(props, entries) && KeyOf(p.name) !in entries && k <= |props|
    ensures Lists(InsertAt(props, k, p), entries[KeyOf(p.name) := p])
  {
    var after := InsertAt(props, k, p);
    assert after[k] == p;
    forall key | key in entries ensures exists j :: 0 <= j < |after| && KeyOf(after[j].name) == key {
      var j :| 0 <= j < |props| && KeyOf(props[j].name) == key;
      assert after[if j < k then j else j + 1] == props[j];
    }
  }

  lemma RemoveOthers(props: seq<Property>, i: nat, j: nat)
    requires i < |props| && j < |props| && i != j
    ensures exists k :: 0 <= k < |props| - 1 && RemoveAt(props, i)[k] == props[j]
  {
    assert RemoveAt(props, i)[if j < i then j else j - 1] == props[j];
  }

  lemma ListsRemove(props: seq<Property>, entries: map<string, Property>, i: nat)
    requires DistinctKeys(props) && Lists(props, entries) && i < |props|
    ensures Lists(RemoveAt(props, i), entries - {KeyOf(props[i].name)})
  {
    var after, key := RemoveAt(props, i), KeyOf(props[i].name);
    forall k | k in entries - {key} ensures exists j :: 0 <= j < |after| && KeyOf(after[j].name) == k {
      var j :| 0 <= j < |props| && KeyOf(props[j].name) == k;
      RemoveOthers(props, i, j);
    }
    forall j | 0 <= j < |after| ensures KeyOf(after[j].name) in entries - {key}
      && entries[KeyOf(after[j].name)] == after[j] {
      assert after[j] == props[if j < i then j else j + 1];
    }
  }

  /** A property that replaces one of the same key keeps the array in order. */
  lemma ReplaceKeeps(props: seq<Property>, entries: map<string, Property>, i: nat, p: Property)
    requires StrictlySorted(props, ByName) && Lists(props, entries) && i < |props|
             && KeyOf(p.name) == KeyOf(props[i].name)
    ensures StrictlySorted(props[i := p], ByName) && Lists(props[i := p], entries[KeyOf(p.name) := p])
  {
    SortedIsDistinct(props);
    ListsReplace(props, entries, i, p);
    forall j | 0 <= j < |props| ensures SameOrder(p, props[i], props[j]) {
      StrCompareIs(p.name, props[j].name);
      StrCompareIs(props[i].name, props[j].name);
      StrCompareIs(props[j].name, p.name);
      StrCompareIs(props[j].name, props[i].name);
    }
    ReplaceStrictly(props, ByName, i, p);
  }

  ghost predicate SameOrder(p: Property, q: Property, r: Property) {
    ByName(r, p) == ByName(r, q) && ByName(p, r) == ByName(q, r)
  }

  /** A property with a new key goes in its place. */
  lemma InsertKeeps(props: seq<Property>, entries: map<string, Property>, p: Property)
    requires StrictlySorted(props, ByName) && Lists(props, entries) && KeyOf(p.name) !in entries
    ensures Falling(props, Probe(ByName, p))
    ensures var after := InsertAt(props, LowerBound(props, Probe(ByName, p)), p);
            StrictlySorted(after, ByName) && Lists(after, entries[KeyOf(p.name) := p])
  {
    var all := (set q | q in props) + {p};
    ByNameOrders(all);
    forall i | 0 <= i < |props| ensures ByName(p, props[i]) != 0 {
      NamesAreOrdered(p.name, props[i].name, p.name);
    }
    InsertStrictly(props, ByName, p, all);
    ListsInsert(props, entries, p, LowerBound(props, Probe(ByName, p)));
  }

  lemma RemoveKeeps(props: seq<Property>, entries: map<string, Property>, i: nat)
    requires StrictlySorted(props, ByName) && Lists(props, entries) && i < |props|
    ensures StrictlySorted(RemoveAt(props, i), ByName) && Lists(RemoveAt(props, i), entries - {KeyOf(props[i].name)})
  {
    SortedIsDistinct(props);
    ListsRemove(props, entries, i);
    RemoveStrictly(props, ByName, i);
  }

  class PropertyBag {
    const list: ArrayList<Property>
    ghost var entries: map<string, Property>   // what the bag holds, by the name in lower case

    ghost predicate Valid()
      reads this, list, list.items
    {
      list.Valid() && list.count < SIZE_LIMIT && StrictlySorted(list.Contents(), ByName)
        && Lists(list.Contents(), entries)
    }

    constructor ()
      ensures Valid() && entries == map[] && fresh(list)
    {
      list := new ArrayList<Property>();
      entries := map[];
    }

    method Find(name: string) returns (r: int)
      requires Valid()
      ensures r == NOT_FOUND <==> KeyOf(name) !in entries
      ensures r != NOT_FOUND ==>
                0 <= r < list.count && list.Contents()[r] == entries[KeyOf(name)]
                  && KeyOf(list.Contents()[r].name) == KeyOf(name)
      ensures r != NOT_FOUND ==> SameName(name, list.Contents()[r].name)
      ensures r == NOT_FOUND ==> forall i :: 0 <= i < list.count ==> !SameName(name, list.Contents()[i].name)
    {
      Searchable(list.Contents(), name);
      r := list.BinarySearch(Probe(ByName, Property(name, NullValue)));
    }

    method Replace(p: Property, index: nat)
      requires Valid() && index < list.count && KeyOf(list.Contents()[index].name) == KeyOf(p.name)
      modifies this`entries, list.items
      ensures Valid() && entries == old(entries)[KeyOf(p.name) := p]
    {
      ReplaceKeeps(list.Contents(), entries, index, p);
      var _ := list.SetElementAt(p, index);
      entries := entries[KeyOf(p.name) := p];
    }

    method Place(p: Property, memory: bool) returns (ok: bool)
      requires list.Valid() && Falling(list.Contents(), Probe(ByName, p))
      modifies list, list.items
      ensures list.Valid() && (list.items != old(list.items) && list.items != null ==> fresh(list.items))
      ensures !ok ==> !memory && list.Contents() == old(list.Contents())
      ensures ok ==>
                list.Contents() == InsertAt(old(list.Contents()), LowerBound(old(list.Contents()), Probe(ByName, p)), p)
    {
      var done, _ := list.SortedInsert(p, ByName, false, memory);
      ok := done;
    }

    method Add(p: Property, memory: bool) returns (ok: bool)
      requires Valid() && list.count + 1 < SIZE_LIMIT && KeyOf(p.name) !in entries
      modifies this`entries, list, list.items
      ensures Valid() && (list.items != old(list.items) && list.items != null ==> fresh(list.items))
      ensures entries == if ok then old(entries)[KeyOf(p.name) := p] else old(entries)
      ensures !ok ==> !memory
    {
      InsertKeeps(list.Contents(), entries, p);
      ok := Place(p, memory);
      if ok {
        entries := entries[KeyOf(p.name) := p];
      }
    }

    /** Puts a property in the place of that with the same name, or adds it. */
    method Insert(p: Property, memory: bool) returns (ok: bool)
      requires Valid() && list.count + 1 < SIZE_LIMIT
      modifies this`entries, list, list.items
      ensures Valid() && (list.items != old(list.items) && list.items != null ==> fresh(list.items))
      ensures entries == if ok then old(entries)[KeyOf(p.name) := p] else old(entries)
      ensures !ok ==> !memory && KeyOf(p.name) !in entries
    {
      var index := Find(p.name);
      if index != NOT_FOUND {
        Replace(p, index);
        ok := true;
      } else {
        ok := Add(p, memory);
      }
    }

    /** SetNull, SetDWord, SetQWord, SetDouble and both SetString. room and grow say whether the memory for the
        property and for a larger array is there. */
    method Set(name: Text, value: Value, room: bool, grow: bool) returns (r: Result)
      requires Valid() && list.count + 1 < SIZE_LIMIT
      modifies this, list, list.items
      ensures Valid() && (list.items != old(list.items) && list.items != null ==> fresh(list.items))
      ensures if name == NoText || value in {AnsiValue(NoText), WideValue(NoText)} then r == Pointer
              else if name.s == "" then r == InvalidArgument
              else if !room then r == OutOfMemory
              else r in {OutOfMemory, Ok}
      ensures r == OutOfMemory ==> !room || (!grow && KeyOf(name.s) !in old(entries))
      ensures entries == if r == Ok then old(entries)[KeyOf(name.s) := Property(name.s, value)] else old(entries)
    {
      if name == NoText || Refused(value) {
        return Pointer;
      }
      if name.s == "" {
        return InvalidArgument;
      }
      if !room {
        return OutOfMemory;
      }
      var ok := Insert(Property(name.s, value), grow);
      r := if ok then Ok else OutOfMemory;
    }

    method Remove(index: nat)
      requires Valid() && index < list.count
      modifies this`entries, list`count, list`deleted, list.items
      ensures Valid() && entries == old(entries) - {KeyOf(old(list.Contents())[index].name)}
    {
      ghost var props := list.Contents();
      RemoveKeeps(props, entries, index);
      var _ := list.RemoveElementAt(index, 1, true);
      assert list.Contents() == RemoveAt(props, index);
      entries := entries - {KeyOf(props[index].name)};
    }

    /** Removes the property of the name, and no other. */
    method Clear(name: Text) returns (r: Result)
      requires Valid()
      modifies this, list, list.items
      ensures Valid() && list.items == old(list.items)
      ensures r == if name == NoText then Pointer
                   else if name.s == "" then InvalidArgument
                   else if KeyOf(name.s) !in old(entries) then NotFound else Ok
      ensures entries == if r == Ok then old(entries) - {KeyOf(name.s)} else old(entries)
    {
      if name == NoText {
        return Pointer;
      }
      if name.s == "" {
        return InvalidArgument;
      }
      var index := Find(name.s);
      if index == NOT_FOUND {
        return NotFound;
      }
      Remove(index);
      return Ok;
    }

    method Fetch(index: nat, kind: Kind, default_: Value) returns (value: Value, r: Result)
      requires Valid() && index < list.count
      ensures r == if Fits(kind, list.Contents()[index].value) then Ok else Fail
      ensures value == if r == Ok then list.Contents()[index].value else default_
    {
      var p := list.GetElementAt(index);
      KindFits(p.value, kind);
      if KindOf(p.value) != kind {
        return default_, Fail;
      }
      return p.value, Ok;
    }

    /** GetDWord, GetQWord, GetDouble and both GetString by name, for the kind of value that each wants. */
    method Get(name: Text, kind: Kind, default_: Value) returns (r: Result, value: Value)
      requires Valid()
      ensures r == if name == NoText then Pointer
                   else if name.s == "" then InvalidArgument
                   else if KeyOf(name.s) !in entries then NotFound
                   else if !Fits(kind, entries[KeyOf(name.s)].value) then Fail else Ok
      ensures value == if r == Ok then entries[KeyOf(name.s)].value else default_
    {
      value := default_;
      if name == NoText {
        return Pointer, value;
      }
      if name.s == "" {
        return InvalidArgument, value;
      }
      var index := Find(name.s);
      if index == NOT_FOUND {
        return NotFound, value;
      }
      value, r := Fetch(index, kind, default_);
    }

    method GetKind(name: Text) returns (kind: Kind)
      requires Valid()
      ensures kind == Undefined <==> name == NoText || name.s == "" || KeyOf(name.s) !in entries
      ensures kind != Undefined ==> Fits(kind, entries[KeyOf(name.s)].value)
    {
      if name == NoText || name.s == "" {
        return Undefined;
      }
      var index := Find(name.s);
      if index == NOT_FOUND {
        return Undefined;
      }
      var p := list.GetElementAt(index);
      return KindOf(p.value);
    }

    method Reset()
      requires Valid()
      modifies this, list
      ensures Valid() && entries == map[]
    {
      list.RemoveAllElements();
      entries := map[];
    }
  }

  /** What was set is what is got, under the name in any case; other names are not affected, and
      a name that was cleared is not found. */
  method SetThenGet(bag: PropertyBag, name: string, alias: string, other: string, value: Value, kind: Kind)
    returns (found: Result, got: Value, before: (Result, Value), after: (Result, Value), gone: Result)
    requires bag.Valid() && bag.list.count + 1 < SIZE_LIMIT && name != "" && other != ""
             && value !in {AnsiValue(NoText), WideValue(NoText)} && Fits(kind, value)
    requires SameName(alias, name) && !SameName(other, name)
    modifies bag, bag.list, bag.list.items
    ensures found == Ok && got == value && after == before && gone == NotFound
  {
    SameKeys(alias, name);
    SameKeys(other, name);
    var r, v := bag.Get(Text(other), kind, NullValue);
    before := (r, v);
    ghost var was := bag.entries;
    var _ := bag.Set(Text(name), value, true, true);
    assert bag.entries == was[KeyOf(name) := Property(name, value)];
    found, got := bag.Get(Text(alias), kind, NullValue);
    r, v := bag.Get(Text(other), kind, NullValue);
    after := (r, v);
    var _ := bag.Clear(Text(alias));
    assert KeyOf(name) !in bag.entries;
    gone, v := bag.Get(Text(name), kind, NullValue);
  }
}
