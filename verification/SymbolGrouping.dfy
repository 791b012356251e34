/** Grouping of symbol dictionaries by keys, and what it conserves. */
module SymbolGrouping {
  /** A symbol dictionary: its plain entries, and its children if it has that key. */
  datatype Item = Plain(fields: map<string, string>) | Nested(fields: map<string, string>, children: seq<Item>)

  datatype Out = PlainOut(fields: map<string, string>) | NestedOut(fields: map<string, string>, grouped: Grouped)
  datatype Group = Group(value: string, grouped: Grouped)
  datatype Grouped = Groups(groups: seq<Group>) | Leaf(items: seq<Out>)

  type Buckets = seq<(string, seq<Item>)>

  function SizeOf(item: Item): nat
    decreases item
  {
    1 + if item.Nested? then Size(item.children) else 0
  }

  function Size(items: seq<Item>): nat
    decreases items
  {
    if items == [] then 0 else SizeOf(items[0]) + Size(items[1..])
  }

  function BucketsSize(bs: Buckets): nat {
    if bs == [] then 0 else Size(bs[0].1) + BucketsSize(bs[1..])
  }

  // ---- grouping by one key ----

  /** item.pop(key, "unknown") */
  function KeyValue(item: Item, key: string): string {
    if key in item.fields then item.fields[key] else "unknown"
  }

  function Popped(item: Item, key: string): Item {
    item.(fields := item.fields - {key})
  }

  /** Appends to the bucket of the value, opening it at the end if it is new. */
  function Insert(bs: Buckets, value: string, item: Item): Buckets {
    if bs == [] then [(value, [item])]
    else if bs[0].0 == value then [(value, bs[0].1 + [item])] + bs[1..]
    else [bs[0]] + Insert(bs[1..], value, item)
  }

  function Bucketed(items: seq<Item>, key: string): Buckets {
    if items == [] then []
    else
      var last := items[|items| - 1];
      Insert(Bucketed(items[..|items| - 1], key), KeyValue(last, key), Popped(last, key))
  }

  lemma {:induction false} SizeAppend(items: seq<Item>, item: Item)
    ensures Size(items + [item]) == Size(items) + Size([item])
  {
    if items != [] {
      assert (items + [item])[1..] == items[1..] + [item];
      SizeAppend(items[1..], item);
    } else {
      assert items + [item] == [item];
    }
  }

  lemma {:induction false} InsertSize(bs: Buckets, value: string, item: Item)
    ensures BucketsSize(Insert(bs, value, item)) == BucketsSize(bs) + Size([item])
  {
    if bs != [] {
      if bs[0].0 == value {
        SizeAppend(bs[0].1, item);
      } else {
        InsertSize(bs[1..], value, item);
      }
    }
  }

  lemma {:induction false} BucketedSize(items: seq<Item>, key: string)
    ensures BucketsSize(Bucketed(items, key)) == Size(items)
  {
    if items != [] {
      var last, rest := items[|items| - 1], items[..|items| - 1];
      BucketedSize(rest, key);
      InsertSize(Bucketed(rest, key), KeyValue(last, key), Popped(last, key));
      SizeAppend(rest, last);
      assert items == rest + [last];
      assert Size([Popped(last, key)]) == Size([last]);
    }
  }

  // ---- the recursion ----

  function Regroup(items: seq<Item>, keys: seq<string>, childKeys: seq<string>): Grouped
    decreases Size(items), |keys|, 2, 0
  {
    if keys != [] then
      BucketedSize(items, keys[0]);
      Groups(GroupEach(Bucketed(items, keys[0]), keys[1..], childKeys))
    else Leaf(GroupItems(items, childKeys))
  }

  function GroupEach(bs: Buckets, keys: seq<string>, childKeys: seq<string>): seq<Group>
    decreases BucketsSize(bs), |keys|, 3, |bs|
  {
    if bs == [] then [] else [Group(bs[0].0, Regroup(bs[0].1, keys, childKeys))] + GroupEach(bs[1..], keys, childKeys)
  }

  function GroupItems(items: seq<Item>, childKeys: seq<string>): seq<Out>
    decreases Size(items), 0, 1, 0
  {
    if items == [] then []
    else
      assert Size(items) == SizeOf(items[0]) + Size(items[1..]);
      [GroupItem(items[0], childKeys)] + GroupItems(items[1..], childKeys)
  }

  function GroupItem(item: Item, childKeys: seq<string>): Out
    decreases SizeOf(item), 0, 0, 0
  {
    match item
    case Plain(fields) => PlainOut(fields)
    case Nested(fields, children) => NestedOut(fields, Regroup(children, childKeys, childKeys))
  }

  // ---- the code ----

  lemma {:induction false} InsertAt(bs: Buckets, value: string, item: Item, i: nat)
    requires i <= |bs| && (forall j :: 0 <= j < i ==> bs[j].0 != value) && (i < |bs| ==> bs[i].0 == value)
    ensures Insert(bs, value, item) ==
              if i < |bs| then bs[i := (value, bs[i].1 + [item])] else bs + [(value, [item])]
  {
    if i > 0 {
      InsertAt(bs[1..], value, item, i - 1);
    }
  }

  method PutInBucket(bs: Buckets, value: string, item: Item) returns (bs': Buckets)
    ensures bs' == Insert(bs, value, item)
  {
    var i := 0;
    while i < |bs| && bs[i].0 != value
      invariant 0 <= i <= |bs| && forall j :: 0 <= j < i ==> bs[j].0 != value
    {
      i := i + 1;
    }
    InsertAt(bs, value, item, i);
    if i < |bs| {
      bs' := bs[i := (value, bs[i].1 + [item])];
    } else {
      bs' := bs + [(value, [item])];
    }
  }

  method GroupBy(items: seq<Item>, keys: seq<string>, childKeys: seq<string>) returns (grouped: Grouped)
    ensures grouped == Regroup(items, keys, childKeys)
    decreases Size(items), |keys|, 2
  {
    if |keys| > 0 {
      var bs: Buckets := [];
      var i := 0;
      while i < |items|
        invariant 0 <= i <= |items| && bs == Bucketed(items[..i], keys[0])
      {
        var item := items[i];
        assert items[..i + 1][..i] == items[..i];
        bs := PutInBucket(bs, KeyValue(item, keys[0]), Popped(item, keys[0]));
        i := i + 1;
      }
      assert items[..i] == items;
      BucketedSize(items, keys[0]);
      var groups := GroupBuckets(bs, keys[1..], childKeys);
      grouped := Groups(groups);
    } else {
      var outs := GroupChildren(items, childKeys);
      grouped := Leaf(outs);
    }
  }

  method GroupBuckets(bs: Buckets, keys: seq<string>, childKeys: seq<string>) returns (groups: seq<Group>)
    ensures groups == GroupEach(bs, keys, childKeys)
    decreases BucketsSize(bs), |keys|, 3
  {
    groups := [];
    var i := 0;
    while i < |bs|
      invariant 0 <= i <= |bs| && groups + GroupEach(bs[i..], keys, childKeys) == GroupEach(bs, keys, childKeys)
      invariant BucketsSize(bs[i..]) <= BucketsSize(bs)
    {
      var group := GroupBy(bs[i].1, keys, childKeys);
      groups := groups + [Group(bs[i].0, group)];
      i := i + 1;
    }
  }

  lemma {:induction false} ItemsFrom(items: seq<Item>, i: nat, childKeys: seq<string>)
    requires i < |items|
    ensures Size(items[i..]) == SizeOf(items[i]) + Size(items[i + 1..])
    ensures GroupItems(items[i..], childKeys) ==
            [GroupItem(items[i], childKeys)] + GroupItems(items[i + 1..], childKeys)
  {
    assert items[i..][1..] == items[i + 1..];
  }

  method GroupChildren(items: seq<Item>, childKeys: seq<string>) returns (outs: seq<Out>)
    ensures outs == GroupItems(items, childKeys)
    decreases Size(items), 0, 1
  {
    outs := [];
    var i := 0;
    while i < |items|
      invariant 0 <= i <= |items| && outs + GroupItems(items[i..], childKeys) == GroupItems(items, childKeys)
      invariant Size(items[i..]) <= Size(items)
    {
      ItemsFrom(items, i, childKeys);
      if items[i].Nested? {
        var grouped := GroupBy(items[i].children, childKeys, childKeys);
        outs := outs + [NestedOut(items[i].fields, grouped)];
      } else {
        outs := outs + [PlainOut(items[i].fields)];
      }
      i := i + 1;
    }
  }

  // ---- each group in original order ----

  function WithValue(items: seq<Item>, key: string, value: string): seq<Item> {
    if items == [] then []
    else
      var last, rest := items[|items| - 1], WithValue(items[..|items| - 1], key, value);
      if KeyValue(last, key) == value then rest + [Popped(last, key)] else rest
  }

  function Bucket(bs: Buckets, value: string): seq<Item> {
    if bs == [] then [] else if bs[0].0 == value then bs[0].1 else Bucket(bs[1..], value)
  }

  predicate DistinctValues(bs: Buckets) {
    forall i, j :: 0 <= i < j < |bs| ==> bs[i].0 != bs[j].0
  }

  ghost function ValuesOf(bs: Buckets): set<string> {
    set i | 0 <= i < |bs| :: bs[i].0
  }

  lemma {:induction false} ValuesCons(bs: Buckets)
    requires bs != []
    ensures ValuesOf(bs) == {bs[0].0} + ValuesOf(bs[1..])
    ensures DistinctValues(bs) <==> DistinctValues(bs[1..]) && bs[0].0 !in ValuesOf(bs[1..])
  {
    var rest := bs[1..];
    assert forall i :: 0 <= i < |rest| ==> rest[i] == bs[i + 1];
    forall v | v in ValuesOf(bs) ensures v == bs[0].0 || v in ValuesOf(rest) {
      var i :| 0 <= i < |bs| && bs[i].0 == v;
      assert i > 0 ==> rest[i - 1].0 == v;
    }
    forall v | v in ValuesOf(rest) ensures v in ValuesOf(bs) {
      var i :| 0 <= i < |rest| && rest[i].0 == v;
      assert bs[i + 1].0 == v;
    }
    if DistinctValues(bs) {
      forall i, j | 0 <= i < j < |rest| ensures rest[i].0 != rest[j].0 {
        assert bs[i + 1].0 != bs[j + 1].0;
      }
    }
    if DistinctValues(rest) && bs[0].0 !in ValuesOf(rest) {
      forall j | 0 < j < |bs| ensures bs[0].0 != bs[j].0 {
        assert rest[j - 1].0 in ValuesOf(rest);
      }
    }
  }

  lemma {:induction false} InsertValues(bs: Buckets, value: string, item: Item)
    requires DistinctValues(bs)
    ensures DistinctValues(Insert(bs, value, item)) && ValuesOf(Insert(bs, value, item)) == ValuesOf(bs) + {value}
  {
    var bs' := Insert(bs, value, item);
    ValuesCons(bs');
    if bs != [] {
      ValuesCons(bs);
      if bs[0].0 != value {
        InsertValues(bs[1..], value, item);
      }
    }
  }

  lemma {:induction false} InsertBucket(bs: Buckets, value: string, item: Item, other: string)
    ensures Bucket(Insert(bs, value, item), other) ==
            if other == value then Bucket(bs, value) + [item] else Bucket(bs, other)
  {
    if bs != [] && bs[0].0 != value {
      InsertBucket(bs[1..], value, item, other);
    }
  }

  /** The values of the buckets are distinct, and each bucket is the subsequence of the items with its value. */
  lemma {:induction false} BucketsKeepOrder(items: seq<Item>, key: string, value: string)
    ensures DistinctValues(Bucketed(items, key))
    ensures Bucket(Bucketed(items, key), value) == WithValue(items, key, value)
  {
    if items != [] {
      var last, rest := items[|items| - 1], items[..|items| - 1];
      BucketsKeepOrder(rest, key, value);
      BucketsKeepOrder(rest, key, KeyValue(last, key));
      InsertValues(Bucketed(rest, key), KeyValue(last, key), Popped(last, key));
      InsertBucket(Bucketed(rest, key), KeyValue(last, key), Popped(last, key), value);
    }
  }

  // ---- putting the keys back ----

  /** Flattens a grouped result; `back` holds the key values of the groups around it. */
  function Flatten(g: Grouped, keys: seq<string>, childKeys: seq<string>, back: map<string, string>): seq<Item>
    decreases g
  {
    match g
    case Groups(groups) => if keys == [] then [] else FlattenEach(groups, keys, childKeys, back)
    case Leaf(items) => FlattenItems(items, childKeys, back)
  }

  function FlattenEach(groups: seq<Group>, keys: seq<string>, childKeys: seq<string>, back: map<string, string>):
    seq<Item>
    requires keys != []
    decreases groups
  {
    if groups == [] then []
    else Flatten(groups[0].grouped, keys[1..], childKeys, map[keys[0] := groups[0].value] + back)
         + FlattenEach(groups[1..], keys, childKeys, back)
  }

  function FlattenItems(items: seq<Out>, childKeys: seq<string>, back: map<string, string>): seq<Item>
    decreases items
  {
    if items == [] then [] else [FlattenItem(items[0], childKeys, back)] + FlattenItems(items[1..], childKeys, back)
  }

  function FlattenItem(item: Out, childKeys: seq<string>, back: map<string, string>): Item
    decreases item
  {
    match item
    case PlainOut(fields) => Plain(fields + back)
    case NestedOut(fields, grouped) => Nested(fields + back, Flatten(grouped, childKeys, childKeys, map[]))
  }

  // ---- what is conserved ----

  /** A symbol up to the order of children at every level. */
  datatype Norm =
    | PlainNorm(fields: map<string, string>)
    | NestedNorm(fields: map<string, string>, children: multiset<Norm>)

  ghost function Canon(item: Item): Norm
    decreases item
  {
    match item
    case Plain(fields) => PlainNorm(fields)
    case Nested(fields, children) => NestedNorm(fields, CanonAll(children))
  }

  ghost function CanonAll(items: seq<Item>): multiset<Norm>
    decreases items
  {
    if items == [] then multiset{} else multiset{Canon(items[0])} + CanonAll(items[1..])
  }

  /** The item with the keys that grouping would have to make up, and with `back` on top. */
  function Filled(item: Item, keys: seq<string>, childKeys: seq<string>, back: map<string, string>): Item
    decreases item, 1
  {
    match item
    case Plain(fields) => Plain(FilledFields(fields, keys) + back)
    case Nested(fields, children) =>
      Nested(FilledFields(fields, keys) + back, FilledAll(children, childKeys, childKeys, map[]))
  }

  function FilledFields(fields: map<string, string>, keys: seq<string>): map<string, string> {
    (map k | k in keys :: "unknown") + fields
  }

  function FilledAll(items: seq<Item>, keys: seq<string>, childKeys: seq<string>, back: map<string, string>): seq<Item>
    decreases items, 0
  {
    if items == [] then [] else [Filled(items[0], keys, childKeys, back)] + FilledAll(items[1..], keys, childKeys, back)
  }

  /** What the buckets stand for once their value is put back. */
  ghost function BucketsCanon(bs: Buckets, key: string, keys: seq<string>, childKeys: seq<string>,
                              back: map<string, string>): multiset<Norm>
  {
    if bs == [] then multiset{}
    else CanonAll(FilledAll(bs[0].1, keys, childKeys, map[key := bs[0].0] + back))
         + BucketsCanon(bs[1..], key, keys, childKeys, back)
  }

  lemma {:induction false} CanonConcat(a: seq<Item>, b: seq<Item>)
    ensures CanonAll(a + b) == CanonAll(a) + CanonAll(b)
  {
    if a == [] {
      assert a + b == b;
    } else {
      assert (a + b)[1..] == a[1..] + b;
      CanonConcat(a[1..], b);
    }
  }

  lemma {:induction false} FilledConcat(a: seq<Item>, b: seq<Item>, keys: seq<string>, childKeys: seq<string>,
                                        back: map<string, string>)
    ensures FilledAll(a + b, keys, childKeys, back) ==
            FilledAll(a, keys, childKeys, back) + FilledAll(b, keys, childKeys, back)
  {
    if a == [] {
      assert a + b == b;
    } else {
      assert (a + b)[1..] == a[1..] + b;
      FilledConcat(a[1..], b, keys, childKeys, back);
    }
  }

  function PutBack(fields: map<string, string>, key: string, rest: seq<string>, back: map<string, string>):
    map<string, string>
  {
    FilledFields(fields - {key}, rest) + (map[key := if key in fields then fields[key] else "unknown"] + back)
  }

  lemma {:induction false} FieldPutBack(fields: map<string, string>, key: string, rest: seq<string>,
                                        back: map<string, string>, x: string)
    ensures var lhs, rhs := PutBack(fields, key, rest, back), FilledFields(fields, [key] + rest) + back;
      (x in lhs <==> x in rhs) && (x in lhs ==> lhs[x] == rhs[x])
  {
    assert x in [key] + rest <==> x == key || x in rest;
  }

  lemma {:induction false} FieldsPutBack(fields: map<string, string>, key: string, rest: seq<string>,
                                         back: map<string, string>)
    ensures PutBack(fields, key, rest, back) == FilledFields(fields, [key] + rest) + back
  {
    forall x
      ensures var lhs, rhs := PutBack(fields, key, rest, back), FilledFields(fields, [key] + rest) + back;
        (x in lhs <==> x in rhs) && (x in lhs ==> lhs[x] == rhs[x])
    {
      FieldPutBack(fields, key, rest, back, x);
    }
  }

  /** Popping a key and putting its value back is the same as filling it in. */
  lemma {:induction false} PopAndPutBack(item: Item, keys: seq<string>, childKeys: seq<string>,
                                         back: map<string, string>)
    requires keys != []
    ensures Filled(Popped(item, keys[0]), keys[1..], childKeys, map[keys[0] := KeyValue(item, keys[0])] + back)
            == Filled(item, keys, childKeys, back)
  {
    assert keys == [keys[0]] + keys[1..];
    FieldsPutBack(item.fields, keys[0], keys[1..], back);
  }

  lemma {:induction false} AppendCanon(items: seq<Item>, item: Item, keys: seq<string>, childKeys: seq<string>,
                                       back: map<string, string>)
    ensures CanonAll(FilledAll(items + [item], keys, childKeys, back))
            == CanonAll(FilledAll(items, keys, childKeys, back)) + multiset{Canon(Filled(item, keys, childKeys, back))}
  {
    FilledConcat(items, [item], keys, childKeys, back);
    CanonConcat(FilledAll(items, keys, childKeys, back), FilledAll([item], keys, childKeys, back));
    assert FilledAll([item], keys, childKeys, back) == [Filled(item, keys, childKeys, back)];
    assert CanonAll([Filled(item, keys, childKeys, back)]) == multiset{Canon(Filled(item, keys, childKeys, back))};
  }

  lemma {:induction false} BucketsCanonCons(first: (string, seq<Item>), rest: Buckets,
                         key: string, keys: seq<string>, childKeys: seq<string>, back: map<string, string>)
    ensures BucketsCanon([first] + rest, key, keys, childKeys, back) ==
            CanonAll(FilledAll(first.1, keys, childKeys, map[key := first.0] + back))
            + BucketsCanon(rest, key, keys, childKeys, back)
  {
    assert ([first] + rest)[1..] == rest;
  }

  lemma {:induction false} InsertCanonHere(first: (string, seq<Item>), rest: Buckets, item: Item, key: string,
                        keys: seq<string>, childKeys: seq<string>, back: map<string, string>)
    ensures BucketsCanon([(first.0, first.1 + [item])] + rest, key, keys, childKeys, back) ==
            BucketsCanon([first] + rest, key, keys, childKeys, back)
            + multiset{Canon(Filled(item, keys, childKeys, map[key := first.0] + back))}
  {
    AppendCanon(first.1, item, keys, childKeys, map[key := first.0] + back);
    BucketsCanonCons((first.0, first.1 + [item]), rest, key, keys, childKeys, back);
    BucketsCanonCons(first, rest, key, keys, childKeys, back);
  }

  lemma {:induction false} InsertCanon(bs: Buckets, value: string, item: Item, key: string,
                                       keys: seq<string>, childKeys: seq<string>, back: map<string, string>)
    ensures BucketsCanon(Insert(bs, value, item), key, keys, childKeys, back) ==
            BucketsCanon(bs, key, keys, childKeys, back)
            + multiset{Canon(Filled(item, keys, childKeys, map[key := value] + back))}
  {
    if bs == [] {
      InsertCanonHere((value, []), [], item, key, keys, childKeys, back);
      BucketsCanonCons((value, []), [], key, keys, childKeys, back);
      var none: seq<Item> := [];
      assert none + [item] == [item];
    } else {
      assert bs == [bs[0]] + bs[1..];
      if bs[0].0 == value {
        InsertCanonHere(bs[0], bs[1..], item, key, keys, childKeys, back);
      } else {
        InsertCanon(bs[1..], value, item, key, keys, childKeys, back);
        BucketsCanonCons(bs[0], Insert(bs[1..], value, item), key, keys, childKeys, back);
        BucketsCanonCons(bs[0], bs[1..], key, keys, childKeys, back);
      }
    }
  }

  lemma {:induction false} BucketedCanon(items: seq<Item>, keys: seq<string>, childKeys: seq<string>,
                                         back: map<string, string>)
    requires keys != []
    ensures BucketsCanon(Bucketed(items, keys[0]), keys[0], keys[1..], childKeys, back) ==
            CanonAll(FilledAll(items, keys, childKeys, back))
  {
    if items != [] {
      var last, rest := items[|items| - 1], items[..|items| - 1];
      assert items == rest + [last];
      BucketedCanon(rest, keys, childKeys, back);
      PopAndPutBack(last, keys, childKeys, back);
      InsertCanon(Bucketed(rest, keys[0]), KeyValue(last, keys[0]), Popped(last, keys[0]), keys[0], keys[1..],
                  childKeys, back);
      AppendCanon(rest, last, keys, childKeys, back);
    }
  }

  /** Whatever the items hold, flattening a grouped list gives it back, at every level up to order, with every
      missing key filled in. */
  lemma {:induction false} FlattenRegroup(items: seq<Item>, keys: seq<string>, childKeys: seq<string>,
                                          back: map<string, string>)
    ensures CanonAll(Flatten(Regroup(items, keys, childKeys), keys, childKeys, back)) ==
            CanonAll(FilledAll(items, keys, childKeys, back))
    decreases Size(items), |keys|, 2, 0
  {
    if keys != [] {
      BucketedSize(items, keys[0]);
      FlattenRegroupEach(Bucketed(items, keys[0]), keys, childKeys, back);
      BucketedCanon(items, keys, childKeys, back);
    } else {
      FlattenRegroupItems(items, childKeys, back);
    }
  }

  lemma {:induction false} FlattenRegroupEach(bs: Buckets, keys: seq<string>, childKeys: seq<string>,
                                              back: map<string, string>)
    requires keys != []
    ensures CanonAll(FlattenEach(GroupEach(bs, keys[1..], childKeys), keys, childKeys, back))
            == BucketsCanon(bs, keys[0], keys[1..], childKeys, back)
    decreases BucketsSize(bs), |keys[1..]|, 3, |bs|
  {
    if bs != [] {
      var back' := map[keys[0] := bs[0].0] + back;
      FlattenRegroup(bs[0].1, keys[1..], childKeys, back');
      FlattenRegroupEach(bs[1..], keys, childKeys, back);
      var groups := GroupEach(bs, keys[1..], childKeys);
      assert groups[1..] == GroupEach(bs[1..], keys[1..], childKeys);
      CanonConcat(Flatten(groups[0].grouped, keys[1..], childKeys, back'),
                  FlattenEach(groups[1..], keys, childKeys, back));
    }
  }

  lemma {:induction false} FlattenRegroupItems(items: seq<Item>, childKeys: seq<string>, back: map<string, string>)
    ensures CanonAll(FlattenItems(GroupItems(items, childKeys), childKeys, back)) ==
            CanonAll(FilledAll(items, [], childKeys, back))
    decreases Size(items), 0, 1, 0
  {
    if items != [] {
      assert Size(items) == SizeOf(items[0]) + Size(items[1..]);
      FlattenRegroupItems(items[1..], childKeys, back);
      FlattenRegroupItem(items[0], childKeys, back);
      var outs := GroupItems(items, childKeys);
      assert outs[0] == GroupItem(items[0], childKeys) && outs[1..] == GroupItems(items[1..], childKeys);
    }
  }

  lemma {:induction false} FlattenRegroupItem(item: Item, childKeys: seq<string>, back: map<string, string>)
    ensures Canon(FlattenItem(GroupItem(item, childKeys), childKeys, back)) == Canon(Filled(item, [], childKeys, back))
    decreases SizeOf(item), 0, 0, 0
  {
    assert FilledFields(item.fields, []) == item.fields;
    if item.Nested? {
      FlattenRegroup(item.children, childKeys, childKeys, map[]);
    }
  }

  // ---- exactly when nothing is made up ----

  predicate Present(item: Item, keys: seq<string>, childKeys: seq<string>)
    decreases item, 1
  {
    && (forall k :: k in keys ==> k in item.fields)
    && (item.Nested? ==> AllPresent(item.children, childKeys, childKeys))
  }

  predicate AllPresent(items: seq<Item>, keys: seq<string>, childKeys: seq<string>)
    decreases items, 0
  {
    items == [] || (Present(items[0], keys, childKeys) && AllPresent(items[1..], keys, childKeys))
  }

  ghost predicate Complete(n: Norm, keys: seq<string>, childKeys: seq<string>)
    decreases n
  {
    && (forall k :: k in keys ==> k in n.fields)
    && (n.NestedNorm? ==> forall m :: m in n.children ==> Complete(m, childKeys, childKeys))
  }

  lemma {:induction false} FilledIdentity(items: seq<Item>, keys: seq<string>, childKeys: seq<string>)
    requires AllPresent(items, keys, childKeys)
    ensures FilledAll(items, keys, childKeys, map[]) == items
    decreases items
  {
    if items != [] {
      FilledIdentity(items[1..], keys, childKeys);
      assert FilledFields(items[0].fields, keys) + map[] == items[0].fields;
      if items[0].Nested? {
        FilledIdentity(items[0].children, childKeys, childKeys);
      }
    }
  }

  lemma {:induction false} FilledComplete(items: seq<Item>, keys: seq<string>, childKeys: seq<string>)
    ensures forall n :: n in CanonAll(FilledAll(items, keys, childKeys, map[])) ==> Complete(n, keys, childKeys)
    decreases items
  {
    if items != [] {
      FilledComplete(items[1..], keys, childKeys);
      if items[0].Nested? {
        FilledComplete(items[0].children, childKeys, childKeys);
      }
      assert Complete(Canon(Filled(items[0], keys, childKeys, map[])), keys, childKeys);
    }
  }

  lemma {:induction false} CompletePresent(items: seq<Item>, keys: seq<string>, childKeys: seq<string>)
    requires forall n :: n in CanonAll(items) ==> Complete(n, keys, childKeys)
    ensures AllPresent(items, keys, childKeys)
    decreases items
  {
    if items != [] {
      assert Canon(items[0]) in CanonAll(items);
      assert forall n :: n in CanonAll(items[1..]) ==> n in CanonAll(items);
      CompletePresent(items[1..], keys, childKeys);
      if items[0].Nested? {
        assert CanonAll(items[0].children) == Canon(items[0]).children;
        CompletePresent(items[0].children, childKeys, childKeys);
      }
    }
  }

  /** Putting the keys back and flattening conserves the symbols, up to order, at every level of children, exactly
      when every symbol has every key it is grouped by. */
  lemma {:induction false} GroupingConservesIff(items: seq<Item>, keys: seq<string>, childKeys: seq<string>)
    ensures CanonAll(Flatten(Regroup(items, keys, childKeys), keys, childKeys, map[])) == CanonAll(items)
            <==> AllPresent(items, keys, childKeys)
  {
    FlattenRegroup(items, keys, childKeys, map[]);
    if AllPresent(items, keys, childKeys) {
      FilledIdentity(items, keys, childKeys);
    }
    if CanonAll(FilledAll(items, keys, childKeys, map[])) == CanonAll(items) {
      FilledComplete(items, keys, childKeys);
      CompletePresent(items, keys, childKeys);
    }
  }
}
