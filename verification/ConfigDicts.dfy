/** Normalising the keys of a nested dictionary in place. */
module ConfigDicts {
  import opened ConfigKeys

  datatype Entry = Scalar(value: string) | Section(dict: ConfigDict)

  /** A nested dictionary; no two places in it hold the same object. */
  class ConfigDict {
    var entries: Items<Entry>
    ghost var repr: set<ConfigDict>

    ghost predicate Valid()
      reads this, repr
      decreases repr
    {
      && this in repr
      && DistinctKeys(entries)
      && (forall i :: 0 <= i < |entries| && entries[i].1.Section? ==>
            var d := entries[i].1.dict;
            d in repr && d.repr <= repr - {this} && d.Valid())
      && Separate(entries)
    }

    /** The value of one entry. */
    ghost function ValueOf(e: Entry): Config
      requires e.Section? ==> e.dict in repr && e.dict.repr <= repr - {this} && this in repr && e.dict.Valid()
      reads this, repr
      decreases repr, 0
    {
      match e
      case Scalar(v) => Leaf(v)
      case Section(d) => d.Value()
    }

    ghost function Value(): (c: Config)
      requires Valid()
      ensures c.Dict? && |c.entries| == |entries|
      reads this, repr
      decreases repr, 1
    {
      Dict(seq(|entries|, i requires 0 <= i < |entries| && Valid() reads this, repr =>
        (entries[i].0, ValueOf(entries[i].1))))
    }

    /** Removes an item that is there. */
    method PopKey(key: string)
      requires HasKey(entries, key)
      modifies this`entries
      ensures entries == Pop(old(entries), key)
    {
      entries := Pop(entries, key);
    }

    method PutKey(key: string, e: Entry)
      modifies this`entries
      ensures entries == Put(old(entries), key, e)
    {
      entries := Put(entries, key, e);
    }

    /** The disjoint footprints of the entries. */
    lemma Parts() returns (parts: seq<set<ConfigDict>>)
      requires Valid()
      ensures Apart(parts, repr - {this}) && AllParts(entries, parts, Value().entries)
    {
      parts := seq(|entries|, i requires 0 <= i < |entries| && Valid() reads this, repr =>
        if entries[i].1.Section? then entries[i].1.dict.repr else {});
      forall j | 0 <= j < |entries|
        ensures PartAt(entries, parts, Value().entries, j)
      {
      }
    }

    /** `_normalize_property_keys`. */
    method Normalize(lower: Lower)
      requires Valid()
      modifies repr
      ensures Valid() && repr == old(repr)
      ensures Value() == Normalized(lower, old(Value()))
      ensures Idempotent(lower) ==> TreeOf(Value()) == LowerTree(lower, old(Value()))
      decreases repr, 0
    {
      ghost var items, before := entries, Value();
      ghost var parts := Parts();
      ghost var values := NormalizedValues(lower, before);
      ValueIsWellFormed();
      NormalizeItems(lower, before.entries, values, parts);
      Rebuilt(lower, items, parts, values);
      if Idempotent(lower) {
        NormalizedIsLowerTree(lower, before);
      }
    }

    /** No dictionary in the heap has a key twice, at any level. */
    lemma {:induction false} ValueIsWellFormed()
      requires Valid()
      ensures WellFormed(Value())
      decreases repr
    {
      var c := Value();
      forall i | 0 <= i < |entries|
        ensures c.entries[i].0 == entries[i].0 && WellFormed(c.entries[i].1)
      {
        assert c.entries[i] == (entries[i].0, ValueOf(entries[i].1));
        if entries[i].1.Section? {
          entries[i].1.dict.ValueIsWellFormed();
        }
      }
    }

    /** The loop over a snapshot of the items. */
    method NormalizeItems(lower: Lower, ghost start: Items<Config>, ghost target: Items<Config>,
                          ghost parts: seq<set<ConfigDict>>)
      requires DistinctKeys(entries)
      requires Apart(parts, repr - {this}) && AllParts(entries, parts, start)
      requires |target| == |start|
      requires forall j :: 0 <= j < |start| ==> target[j] == (start[j].0, Normalized(lower, start[j].1))
      modifies this`entries, set i, d | 0 <= i < |parts| && d in parts[i] :: d
      ensures repr == old(repr) && entries == Reinserted(lower, old(entries), |old(entries)|)
      ensures AllParts(old(entries), parts, target)
      decreases repr - {this}, 4
    {
      var items := entries;
      assert target[..0] + start[0..] == start;
      for i := 0 to |items|
        invariant repr == old(repr) && entries == Reinserted(lower, items, i)
        invariant AllParts(items, parts, target[..i] + start[i..])
      {
        NormalizeItem(lower, items, i, start, target, parts);
      }
      assert target[..|items|] + start[|items|..] == target;
    }

    /** One turn of the loop leaves all other items alone. */
    method NormalizeItem(lower: Lower, items: Items<Entry>, i: nat, ghost start: Items<Config>,
                         ghost target: Items<Config>,
                         ghost parts: seq<set<ConfigDict>>)
      requires DistinctKeys(items) && i < |items| == |start| && entries == Reinserted(lower, items, i)
      requires |target| == |start| && target[i] == (start[i].0, Normalized(lower, start[i].1))
      requires Apart(parts, repr - {this}) && AllParts(items, parts, target[..i] + start[i..])
      modifies this`entries, parts[i]
      ensures repr == old(repr) && entries == Reinserted(lower, items, i + 1)
      ensures AllParts(items, parts, target[..i + 1] + start[i + 1..])
      decreases parts[i], 3
    {
      ghost var before, after := target[..i] + start[i..], target[..i + 1] + start[i + 1..];
      assert PartAt(items, parts, before, i);
      Turn(lower, items, i, parts[i], start[i].1, target[i].1);
      forall j | 0 <= j < |items|
        ensures PartAt(items, parts, after, j)
      {
        assert old(PartAt(items, parts, before, j));
        assert j != i ==> after[j] == before[j];
      }
    }

    /** One turn of the loop: the item is popped, normalised, and reinserted under its lower-cased key. */
    method Turn(lower: Lower, items: Items<Entry>, i: nat, ghost part: set<ConfigDict>, ghost c: Config,
                ghost normalized: Config)
      requires DistinctKeys(items) && i < |items| && entries == Reinserted(lower, items, i)
      requires (items[i].1.Section? ==> items[i].1.dict in part) && Part(items[i].1, part, c) && this !in part
      requires normalized == Normalized(lower, c)
      modifies this`entries, part
      ensures repr == old(repr) && entries == Reinserted(lower, items, i + 1)
      ensures Part(items[i].1, part, normalized)
      decreases part, 2
    {
      var (key, value) := items[i];
      NeverMisses(lower, items, i, i);
      PopKey(key);
      NormalizeEntry(lower, value, part, c);
      PutKey(lower(key), value);
    }

    /** Once all sections are normalised and the items reinserted, the dictionary is the normalised one. */
    lemma Rebuilt(lower: Lower, items: Items<Entry>, parts: seq<set<ConfigDict>>, values: Items<Config>)
      requires DistinctKeys(items) && entries == Reinserted(lower, items, |items|) && this in repr
      requires Apart(parts, repr - {this}) && AllParts(items, parts, values)
      ensures Valid() && Value() == Dict(Reinserted(lower, values, |values|))
    {
      forall i | 0 <= i < |items|
        ensures items[i].0 == values[i].0
      {
        assert PartAt(items, parts, values, i);
      }
      var ix := RearrangedAlike(lower, items, values);
      RebuiltAs(lower, items, parts, values, Reinserted(lower, values, |values|), ix);
    }

    lemma RebuiltAs(lower: Lower, items: Items<Entry>, parts: seq<set<ConfigDict>>, values: Items<Config>,
                    result: Items<Config>, ix: seq<int>)
      requires this in repr && DistinctKeys(entries) && Apart(parts, repr - {this}) && AllParts(items, parts, values)
      requires Different(ix) && ComesFrom(lower, entries, items, ix) && ComesFrom(lower, result, values, ix)
      ensures Valid() && Value() == Dict(result)
    {
      forall p | 0 <= p < |entries|
        ensures PartAt(items, parts, values, ix[p])
        ensures entries[p].1 == items[ix[p]].1 && result[p] == (entries[p].0, values[ix[p]].1)
      {
        assert PartAt(items, parts, values, ix[p]);
      }
      assert Valid();
      assert Value().entries == result;
    }
  }

  /** Pairwise disjoint parts of a whole. */
  ghost predicate Apart(parts: seq<set<ConfigDict>>, whole: set<ConfigDict>) {
    && (forall i :: 0 <= i < |parts| ==> parts[i] <= whole)
    && (forall i, j :: 0 <= i < j < |parts| ==> parts[i] !! parts[j])
  }

  /** The entry lives in `part` and has this value. */
  ghost predicate Part(e: Entry, part: set<ConfigDict>, c: Config)
    requires e.Section? ==> e.dict in part
    reads part
  {
    match e
    case Scalar(v) => c == Leaf(v) && part == {}
    case Section(d) => d.repr == part && d.Valid() && d.Value() == c
  }

  ghost predicate PartAt(items: Items<Entry>, parts: seq<set<ConfigDict>>, values: Items<Config>, j: int)
    requires |items| == |parts| == |values| && 0 <= j < |items|
    reads parts[j]
  {
    && items[j].0 == values[j].0
    && (items[j].1.Section? ==> items[j].1.dict in parts[j])
    && Part(items[j].1, parts[j], values[j].1)
  }

  ghost predicate AllParts(items: Items<Entry>, parts: seq<set<ConfigDict>>, values: Items<Config>)
    reads set i, d | 0 <= i < |parts| && d in parts[i] :: d
  {
    && |items| == |parts| == |values|
    && forall j {:trigger PartAt(items, parts, values, j)} :: 0 <= j < |items| ==> PartAt(items, parts, values, j)
  }

  method NormalizeEntry(lower: Lower, e: Entry, ghost part: set<ConfigDict>, ghost c: Config)
    requires (e.Section? ==> e.dict in part) && Part(e, part, c)
    modifies part
    ensures Part(e, part, Normalized(lower, c))
    decreases part, 1
  {
    if e.Section? {
      e.dict.Normalize(lower);
    }
  }

  /** Sections share nothing. */
  ghost predicate Separate(entries: Items<Entry>)
    reads set i | 0 <= i < |entries| && entries[i].1.Section? :: entries[i].1.dict
  {
    forall i, j :: 0 <= i < j < |entries| && entries[i].1.Section? && entries[j].1.Section? ==>
      entries[i].1.dict.repr !! entries[j].1.dict.repr
  }
}
