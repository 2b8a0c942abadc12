/** The path-compressed trie of checkpoints and the proof that it is a map. Indices are
    signed: index i >= 0 is node i, index i < 0 is suffix (and value) -i - 1. */
module CheckpointsTries {
  import opened Bits
  import opened Chunks

  datatype Option<T> = None | Some(value: T)

  /** The four tables of the trie. */
  datatype Store = Store(
    metadata: map<nat, map<nat, int>>, nodes: seq<map<Byte, int>>,
    reverseSuffixes: seq<seq<Byte>>, values: seq<int>)

  /** Where an index is stored: the address behind the `int64_t*` of the insertion. */
  datatype Slot = Meta(count: nat, meta: nat) | Child(node: nat, chunk: Byte)

  /** The keys below a slot: those of `count` chunks, this metadata and this prefix. */
  datatype Place = Place(count: nat, meta: nat, prefix: seq<Byte>)

  /** Proof-only bookkeeping: the place of every node, the full key of every suffix, and for
      both the one slot that refers to it. */
  datatype Owners = Owners(nodes: seq<Place>, nodeHomes: seq<Slot>, keys: seq<Place>, homes: seq<Slot>)

  function KeyOf(c: Chunked): Place {
    Place(|c.chunks|, 256 * c.lastChunkSize + c.phase, c.chunks)
  }

  lemma KeyOfInjective(a: Chunked, b: Chunked)
    requires KeyOf(a) == KeyOf(b)
    ensures a == b
  {}

  function Reverse(s: seq<Byte>): (r: seq<Byte>)
    ensures |r| == |s|
  {
    if s == [] then [] else [s[|s| - 1]] + Reverse(s[..|s| - 1])
  }

  lemma {:induction false} ReverseAppend(x: Byte, s: seq<Byte>)
    ensures Reverse([x] + s) == Reverse(s) + [x]
  {
    if s != [] {
      ReverseAppend(x, s[..|s| - 1]);
      assert ([x] + s)[..|s|] == [x] + s[..|s| - 1];
    } else {
      assert [x] + s == [x];
    }
  }

  lemma {:induction false} ReverseTwice(s: seq<Byte>)
    ensures Reverse(Reverse(s)) == s
  {
    if s != [] {
      ReverseAppend(s[|s| - 1], Reverse(s[..|s| - 1]));
      ReverseTwice(s[..|s| - 1]);
    }
  }

  function FromReverseSuffixesIndex(j: int): int { -(j + 1) }
  function ToReverseSuffixesIndex(index: int): int { -index - 1 }

  // ---------- reading ----------

  predicate SlotIn(st: Store, s: Slot) {
    match s
    case Meta(c, m) => c in st.metadata && m in st.metadata[c]
    case Child(n, b) => n < |st.nodes| && b in st.nodes[n]
  }

  function Read(st: Store, s: Slot): int
    requires SlotIn(st, s)
  {
    match s
    case Meta(c, m) => st.metadata[c][m]
    case Child(n, b) => st.nodes[n][b]
  }

  /** What findValueInChunks finds; an index out of range, which would throw there, finds
      nothing here, and ForestNeverThrows shows that no lookup meets one. */
  function FindFrom(st: Store, index: int, chunks: seq<Byte>): Option<int>
    decreases |chunks|
  {
    var j := ToReverseSuffixesIndex(index);
    if chunks == [] then
      if 0 <= j < |st.values| then Some(st.values[j]) else None
    else if index >= 0 then
      if index < |st.nodes| && chunks[0] in st.nodes[index]
      then FindFrom(st, st.nodes[index][chunks[0]], chunks[1..])
      else None
    else
      if j < |st.reverseSuffixes| && j < |st.values| && chunks <= Reverse(st.reverseSuffixes[j])
      then Some(st.values[j])
      else None
  }

  /** Every `.at` of the walk of findValueInChunks is in range. */
  predicate NeverThrows(st: Store, index: int, chunks: seq<Byte>)
    decreases |chunks|
  {
    var j := ToReverseSuffixesIndex(index);
    if chunks == [] then 0 <= j < |st.values|
    else if index >= 0 then
      index < |st.nodes| && (chunks[0] in st.nodes[index] ==> NeverThrows(st, st.nodes[index][chunks[0]], chunks[1..]))
    else
      j < |st.reverseSuffixes| && (chunks <= Reverse(st.reverseSuffixes[j]) ==> j < |st.values|)
  }

  function Lookup(st: Store, k: Place): Option<int> {
    var root := Meta(k.count, k.meta);
    if SlotIn(st, root) then FindFrom(st, Read(st, root), k.prefix) else None
  }

  // ---------- the forest invariant ----------

  ghost predicate Sizes(st: Store, own: Owners) {
    && |own.nodes| == |own.nodeHomes| == |st.nodes|
    && |own.keys| == |own.homes| == |st.reverseSuffixes| == |st.values|
  }

  ghost function PlaceOf(own: Owners, s: Slot): Place
    requires s.Child? ==> s.node < |own.nodes|
  {
    match s
    case Meta(c, m) => Place(c, m, [])
    case Child(n, b) => own.nodes[n].(prefix := own.nodes[n].prefix + [b])
  }

  /** A slot refers to a node of its own place, or to a suffix that completes its prefix to the
      suffix's key; in both cases to one that no other slot refers to. */
  ghost predicate SlotOk(st: Store, own: Owners, s: Slot, index: int)
    requires s.Child? ==> s.node < |own.nodes|
    requires Sizes(st, own)
  {
    var p := PlaceOf(own, s);
    if index >= 0 then
      index < |st.nodes| && own.nodeHomes[index] == s && own.nodes[index] == p && |p.prefix| < p.count
    else
      var j := ToReverseSuffixesIndex(index);
      && j < |st.values| && own.homes[j] == s
      && own.keys[j] == p.(prefix := p.prefix + Reverse(st.reverseSuffixes[j]))
      && |own.keys[j].prefix| == p.count
  }

  ghost predicate RefersTo(st: Store, s: Slot, index: int) {
    SlotIn(st, s) && Read(st, s) == index
  }

  /** Every node and every suffix is referred to. */
  ghost predicate NoOrphans(st: Store, own: Owners)
    requires Sizes(st, own)
  {
    && (forall n :: 0 <= n < |st.nodes| ==> RefersTo(st, own.nodeHomes[n], n))
    && (forall j :: 0 <= j < |st.values| ==> RefersTo(st, own.homes[j], FromReverseSuffixesIndex(j)))
  }

  ghost predicate Forest(st: Store, own: Owners) {
    && Sizes(st, own)
    && (forall s :: SlotIn(st, s) ==> SlotOk(st, own, s, Read(st, s)))
    && NoOrphans(st, own)
  }

  /** A forest in the usual sense: exactly one slot refers to each node and to each suffix. */
  lemma OneSlotEach(st: Store, own: Owners, index: int)
    requires Forest(st, own) && -|st.values| <= index < |st.nodes|
    ensures exists s :: RefersTo(st, s, index)
    ensures forall s, t :: RefersTo(st, s, index) && RefersTo(st, t, index) ==> s == t
  {
    hide Reverse;
    if index >= 0 {
      assert RefersTo(st, own.nodeHomes[index], index);
    } else {
      assert RefersTo(st, own.homes[ToReverseSuffixesIndex(index)], index);
    }
    forall s, t | RefersTo(st, s, index) && RefersTo(st, t, index)
      ensures s == t
    {
      assert SlotOk(st, own, s, index) && SlotOk(st, own, t, index);
    }
  }

  /** A whole key can be looked up from any slot of a forest without running out of range. */
  lemma {:induction false} ForestNeverThrows(st: Store, own: Owners, t: Slot, rest: seq<Byte>)
    requires Forest(st, own) && SlotIn(st, t)
    requires |PlaceOf(own, t).prefix| + |rest| == PlaceOf(own, t).count
    ensures NeverThrows(st, Read(st, t), rest)
    decreases |rest|
  {
    hide Reverse;
    var index := Read(st, t);
    assert SlotOk(st, own, t, index);
    if index >= 0 && rest[0] in st.nodes[index] {
      ForestNeverThrows(st, own, Child(index, rest[0]), rest[1..]);
    }
  }

  // ---------- adding a suffix in a new slot ----------

  ghost predicate Addable(st: Store, own: Owners, s: Slot, chunks: seq<Byte>) {
    && Sizes(st, own) && !SlotIn(st, s) && (s.Child? ==> s.node < |st.nodes|)
    && |PlaceOf(own, s).prefix| + |chunks| == PlaceOf(own, s).count
  }

  function WithSlot(st: Store, s: Slot, index: int): Store
    requires s.Child? ==> s.node < |st.nodes|
  {
    match s
    case Meta(c, m) =>
      st.(metadata := st.metadata[c := (if c in st.metadata then st.metadata[c] else map[])[m := index]])
    case Child(n, b) =>
      var children: map<Byte, int> := st.nodes[n][b := index];
      st.(nodes := st.nodes[n := children])
  }

  function AddSuffix(st: Store, s: Slot, chunks: seq<Byte>, value: int): Store
    requires s.Child? ==> s.node < |st.nodes|
  {
    WithSlot(st.(reverseSuffixes := st.reverseSuffixes + [Reverse(chunks)], values := st.values + [value]),
             s, FromReverseSuffixesIndex(|st.reverseSuffixes|))
  }

  ghost function AddOwner(own: Owners, s: Slot, chunks: seq<Byte>): Owners
    requires s.Child? ==> s.node < |own.nodes|
  {
    var p := PlaceOf(own, s);
    own.(keys := own.keys + [p.(prefix := p.prefix + chunks)], homes := own.homes + [s])
  }

  lemma WithSlotReads(st: Store, s: Slot, index: int, t: Slot)
    requires s.Child? ==> s.node < |st.nodes|
    ensures SlotIn(WithSlot(st, s, index), t) <==> SlotIn(st, t) || t == s
    ensures SlotIn(WithSlot(st, s, index), t) ==> Read(WithSlot(st, s, index), t) == if t == s then index else Read(st, t)
  {}

  lemma AddForest(st: Store, own: Owners, s: Slot, chunks: seq<Byte>, value: int)
    requires Forest(st, own) && Addable(st, own, s, chunks)
    ensures Forest(AddSuffix(st, s, chunks, value), AddOwner(own, s, chunks))
  {
    hide Reverse, NoOrphans;
    var st', own' := AddSuffix(st, s, chunks, value), AddOwner(own, s, chunks);
    ReverseTwice(chunks);
    forall t | SlotIn(st', t)
      ensures SlotOk(st', own', t, Read(st', t))
    {
      WithSlotReads(st.(reverseSuffixes := st'.reverseSuffixes, values := st'.values), s,
                    FromReverseSuffixesIndex(|st.reverseSuffixes|), t);
      if t != s { assert SlotIn(st, t); }
    }
    AddNoOrphans(st, own, s, chunks, value);
  }

  lemma AddReads(st: Store, s: Slot, chunks: seq<Byte>, value: int, t: Slot, index: int)
    requires (s.Child? ==> s.node < |st.nodes|) && !SlotIn(st, s)
    ensures RefersTo(st, t, index) ==> RefersTo(AddSuffix(st, s, chunks, value), t, index)
    ensures RefersTo(AddSuffix(st, s, chunks, value), s, FromReverseSuffixesIndex(|st.reverseSuffixes|))
  {
    hide Reverse;
  }

  lemma AddNoOrphans(st: Store, own: Owners, s: Slot, chunks: seq<Byte>, value: int)
    requires Sizes(st, own) && NoOrphans(st, own) && Addable(st, own, s, chunks)
    ensures Sizes(AddSuffix(st, s, chunks, value), AddOwner(own, s, chunks))
    ensures NoOrphans(AddSuffix(st, s, chunks, value), AddOwner(own, s, chunks))
  {
    hide Reverse, RefersTo, PlaceOf;
    var st', own' := AddSuffix(st, s, chunks, value), AddOwner(own, s, chunks);
    forall n | 0 <= n < |st'.nodes|
      ensures RefersTo(st', own'.nodeHomes[n], n)
    {
      AddReads(st, s, chunks, value, own.nodeHomes[n], n);
    }
    forall j | 0 <= j < |st'.values|
      ensures RefersTo(st', own'.homes[j], FromReverseSuffixesIndex(j))
    {
      AddReads(st, s, chunks, value, own'.homes[j], FromReverseSuffixesIndex(j));
    }
  }

  /** Every other key is found, or not found, as before. */
  lemma {:induction false} AddFrame(st: Store, own: Owners, s: Slot, chunks: seq<Byte>, value: int, t: Slot, rest: seq<Byte>)
    requires Forest(st, own) && Addable(st, own, s, chunks) && SlotIn(st, t)
    requires |PlaceOf(own, t).prefix| + |rest| == PlaceOf(own, t).count
    requires PlaceOf(own, t).(prefix := PlaceOf(own, t).prefix + rest)
          != PlaceOf(own, s).(prefix := PlaceOf(own, s).prefix + chunks)
    ensures FindFrom(AddSuffix(st, s, chunks, value), Read(st, t), rest) == FindFrom(st, Read(st, t), rest)
    decreases |rest|
  {
    hide Reverse;
    var st' := AddSuffix(st, s, chunks, value);
    var index, p := Read(st, t), PlaceOf(own, t);
    assert SlotOk(st, own, t, index);
    if index >= 0 {
      var u := Child(index, rest[0]);
      assert p.prefix + rest == (p.prefix + [rest[0]]) + rest[1..];
      if SlotIn(st, u) {
        AddFrame(st, own, s, chunks, value, u, rest[1..]);
      } else if u == s {
        ReverseTwice(chunks);
        assert rest[1..] != chunks;
      }
    }
  }

  // ---------- splitting the first chunk off a suffix ----------

  predicate CanSplit(st: Store, s: Slot) {
    && SlotIn(st, s)
    && 0 <= ToReverseSuffixesIndex(Read(st, s)) < |st.reverseSuffixes|
    && st.reverseSuffixes[ToReverseSuffixesIndex(Read(st, s))] != []
  }

  ghost predicate Splittable(st: Store, own: Owners, s: Slot) {
    Forest(st, own) && CanSplit(st, s)
  }

  /** pushChunk, and the assignment of its result to the slot. */
  function SplitSuffix(st: Store, s: Slot): Store
    requires CanSplit(st, s)
  {
    var index := Read(st, s);
    var j := ToReverseSuffixesIndex(index);
    var suffix := st.reverseSuffixes[j];
    var popped := st.(reverseSuffixes := st.reverseSuffixes[j := suffix[..|suffix| - 1]],
                      nodes := st.nodes + [map[suffix[|suffix| - 1] := index]]);
    WithSlot(popped, s, |st.nodes|)
  }

  ghost function SplitOwner(st: Store, own: Owners, s: Slot): Owners
    requires Splittable(st, own, s)
  {
    var j := ToReverseSuffixesIndex(Read(st, s));
    var suffix := st.reverseSuffixes[j];
    own.(nodes := own.nodes + [PlaceOf(own, s)], nodeHomes := own.nodeHomes + [s],
         homes := own.homes[j := Child(|own.nodes|, suffix[|suffix| - 1])])
  }

  lemma SplitDefined(st: Store, own: Owners, s: Slot)
    requires Forest(st, own) && SlotIn(st, s) && Read(st, s) < 0
    requires |PlaceOf(own, s).prefix| < PlaceOf(own, s).count
    ensures Splittable(st, own, s)
  {
    assert SlotOk(st, own, s, Read(st, s));
  }

  lemma SplitReads(st: Store, own: Owners, s: Slot, t: Slot)
    requires Splittable(st, own, s)
    ensures var st' := SplitSuffix(st, s);
            var suffix := st.reverseSuffixes[ToReverseSuffixesIndex(Read(st, s))];
            var moved := Child(|st.nodes|, suffix[|suffix| - 1]);
            && (SlotIn(st', t) <==> SlotIn(st, t) || t == moved)
            && (SlotIn(st', t) ==> Read(st', t) == if t == s then |st.nodes| else if t == moved then Read(st, s) else Read(st, t))
  {
    var index := Read(st, s);
    var j := ToReverseSuffixesIndex(index);
    var suffix := st.reverseSuffixes[j];
    var popped := st.(reverseSuffixes := st.reverseSuffixes[j := suffix[..|suffix| - 1]],
                      nodes := st.nodes + [map[suffix[|suffix| - 1] := index]]);
    WithSlotReads(popped, s, |st.nodes|, t);
  }

  lemma SplitForest(st: Store, own: Owners, s: Slot)
    requires Splittable(st, own, s)
    ensures Forest(SplitSuffix(st, s), SplitOwner(st, own, s))
  {
    hide SplitSuffix, SplitOwner, SlotOk, NoOrphans;
    SplitSizes(st, own, s);
    SplitNoOrphans(st, own, s);
    forall t | SlotIn(SplitSuffix(st, s), t)
      ensures SlotOk(SplitSuffix(st, s), SplitOwner(st, own, s), t, Read(SplitSuffix(st, s), t))
    {
      SplitSlot(st, own, s, t);
    }
  }

  lemma SplitSizes(st: Store, own: Owners, s: Slot)
    requires Splittable(st, own, s)
    ensures Sizes(SplitSuffix(st, s), SplitOwner(st, own, s))
    ensures |SplitSuffix(st, s).nodes| == |st.nodes| + 1 && |SplitSuffix(st, s).values| == |st.values|
  {}

  lemma SplitNoOrphans(st: Store, own: Owners, s: Slot)
    requires Splittable(st, own, s)
    ensures Sizes(SplitSuffix(st, s), SplitOwner(st, own, s))
    ensures NoOrphans(SplitSuffix(st, s), SplitOwner(st, own, s))
  {
    hide SplitSuffix, SplitOwner, RefersTo;
    SplitSizes(st, own, s);
    var st', own' := SplitSuffix(st, s), SplitOwner(st, own, s);
    forall n | 0 <= n < |st'.nodes|
      ensures RefersTo(st', own'.nodeHomes[n], n)
    {
      SplitNodeHome(st, own, s, n);
    }
    forall j | 0 <= j < |st'.values|
      ensures RefersTo(st', own'.homes[j], FromReverseSuffixesIndex(j))
    {
      SplitSuffixHome(st, own, s, j);
    }
  }

  lemma SplitNodeHome(st: Store, own: Owners, s: Slot, n: nat)
    requires Splittable(st, own, s) && n <= |st.nodes|
    ensures Sizes(SplitSuffix(st, s), SplitOwner(st, own, s)) && |SplitSuffix(st, s).nodes| == |st.nodes| + 1
    ensures RefersTo(SplitSuffix(st, s), SplitOwner(st, own, s).nodeHomes[n], n)
  {
    hide SplitSuffix;
    SplitSizes(st, own, s);
    if n < |st.nodes| { assert RefersTo(st, own.nodeHomes[n], n); }
    SplitReads(st, own, s, SplitOwner(st, own, s).nodeHomes[n]);
  }

  lemma SplitSuffixHome(st: Store, own: Owners, s: Slot, j: nat)
    requires Splittable(st, own, s) && j < |st.values|
    ensures Sizes(SplitSuffix(st, s), SplitOwner(st, own, s)) && |SplitSuffix(st, s).values| == |st.values|
    ensures RefersTo(SplitSuffix(st, s), SplitOwner(st, own, s).homes[j], FromReverseSuffixesIndex(j))
  {
    hide SplitSuffix;
    SplitSizes(st, own, s);
    assert RefersTo(st, own.homes[j], FromReverseSuffixesIndex(j));
    SplitReads(st, own, s, SplitOwner(st, own, s).homes[j]);
  }

  lemma SplitSlot(st: Store, own: Owners, s: Slot, t: Slot)
    requires Splittable(st, own, s) && SlotIn(SplitSuffix(st, s), t)
    ensures t.Child? ==> t.node <= |st.nodes|
    ensures Sizes(SplitSuffix(st, s), SplitOwner(st, own, s))
    ensures SlotOk(SplitSuffix(st, s), SplitOwner(st, own, s), t, Read(SplitSuffix(st, s), t))
  {
    hide Reverse;
    var suffix := st.reverseSuffixes[ToReverseSuffixesIndex(Read(st, s))];
    assert SlotOk(st, own, s, Read(st, s));
    ReverseSplit(suffix, PlaceOf(own, s).prefix);
    SplitReads(st, own, s, t);
    if SlotIn(st, t) { assert SlotOk(st, own, t, Read(st, t)); }
  }

  lemma ReverseSplit(suffix: seq<Byte>, p: seq<Byte>)
    requires suffix != []
    ensures (p + [suffix[|suffix| - 1]]) + Reverse(suffix[..|suffix| - 1]) == p + Reverse(suffix)
  {
    hide *;
    ReverseLast(suffix);
    Associative(p, [suffix[|suffix| - 1]], Reverse(suffix[..|suffix| - 1]));
  }

  lemma Associative(a: seq<Byte>, b: seq<Byte>, c: seq<Byte>)
    ensures (a + b) + c == a + (b + c)
  {}

  lemma ReverseLast(suffix: seq<Byte>)
    requires suffix != []
    ensures Reverse(suffix) == [suffix[|suffix| - 1]] + Reverse(suffix[..|suffix| - 1])
  {}

  /** Splitting a suffix changes no lookup, from any slot. */
  lemma {:induction false} SplitFrame(st: Store, own: Owners, s: Slot, t: Slot, rest: seq<Byte>)
    requires Splittable(st, own, s) && SlotIn(st, t)
    requires |PlaceOf(own, t).prefix| + |rest| == PlaceOf(own, t).count
    ensures var st' := SplitSuffix(st, s);
            SlotIn(st', t) && FindFrom(st', Read(st', t), rest) == FindFrom(st, Read(st, t), rest)
    decreases |rest|
  {
    SplitReads(st, own, s, t);
    assert SlotOk(st, own, s, Read(st, s)) && SlotOk(st, own, t, Read(st, t));
    var st' := SplitSuffix(st, s);
    if t == s {
      SplitFound(st, own, s, rest);
    } else if Read(st, t) >= 0 {
      var u := Child(Read(st, t), rest[0]);
      SplitReads(st, own, s, u);
      if SlotIn(st, u) { SplitFrame(st, own, s, u, rest[1..]); }
    }
  }

  /** At the split slot itself: the new node, then the shortened suffix. */
  lemma SplitFound(st: Store, own: Owners, s: Slot, rest: seq<Byte>)
    requires Splittable(st, own, s)
    requires |PlaceOf(own, s).prefix| + |rest| == PlaceOf(own, s).count
    ensures var st' := SplitSuffix(st, s);
            FindFrom(st', |st.nodes|, rest) == FindFrom(st, Read(st, s), rest)
  {
    hide Reverse, FindFrom, SplitOwner, Forest, SplitSuffix;
    SlotOkAt(st, own, s);
    var st' := SplitSuffix(st, s);
    var suffix := st.reverseSuffixes[ToReverseSuffixesIndex(Read(st, s))];
    var first, popped := suffix[|suffix| - 1], suffix[..|suffix| - 1];
    ReverseLast(suffix);
    SplitPrefix(rest, first, Reverse(popped));
    SplitTables(st, own, s);
    SplitReads(st, own, s, Child(|st.nodes|, rest[0]));
    FindAtSuffix(st, Read(st, s), rest);
    FindAtNode(st', |st.nodes|, rest);
    FindAtSuffix(st', Read(st, s), rest[1..]);
  }

  lemma SlotOkAt(st: Store, own: Owners, s: Slot)
    requires Forest(st, own) && SlotIn(st, s)
    ensures Sizes(st, own) && (s.Child? ==> s.node < |own.nodes|)
    ensures SlotOk(st, own, s, Read(st, s))
  {}

  lemma SplitTables(st: Store, own: Owners, s: Slot)
    requires Splittable(st, own, s)
    ensures var st', j := SplitSuffix(st, s), ToReverseSuffixesIndex(Read(st, s));
            && st'.values == st.values && |st'.nodes| == |st.nodes| + 1 && |st.reverseSuffixes| == |st.values|
            && st'.reverseSuffixes == st.reverseSuffixes[j := st.reverseSuffixes[j][..|st.reverseSuffixes[j]| - 1]]
  {}

  /** One step of the walk, at a suffix and at a node. */
  lemma FindAtSuffix(st: Store, index: int, chunks: seq<Byte>)
    requires index < 0 && |st.reverseSuffixes| == |st.values| && ToReverseSuffixesIndex(index) < |st.values|
    requires |chunks| == |st.reverseSuffixes[ToReverseSuffixesIndex(index)]|
    ensures var j := ToReverseSuffixesIndex(index);
            FindFrom(st, index, chunks) == if chunks == Reverse(st.reverseSuffixes[j]) then Some(st.values[j]) else None
  {}

  lemma FindAtNode(st: Store, index: int, chunks: seq<Byte>)
    requires 0 <= index < |st.nodes| && chunks != []
    ensures FindFrom(st, index, chunks) ==
            if chunks[0] in st.nodes[index] then FindFrom(st, st.nodes[index][chunks[0]], chunks[1..]) else None
  {}

  lemma SplitPrefix(rest: seq<Byte>, first: Byte, others: seq<Byte>)
    requires |rest| == |others| + 1
    ensures rest == [first] + others <==> rest[0] == first && rest[1..] == others
  {
    assert rest == [rest[0]] + rest[1..];
  }

  // ---------- the path of a key ----------

  /** The slot reached by following d chunks of the key. */
  function SlotAt(st: Store, k: Place, d: nat): (s: Option<Slot>)
    requires d <= |k.prefix|
    ensures s.Some? ==> SlotIn(st, s.value)
  {
    if d == 0 then
      if SlotIn(st, Meta(k.count, k.meta)) then Some(Meta(k.count, k.meta)) else None
    else
      match SlotAt(st, k, d - 1)
      case None => None
      case Some(t) =>
        var index := Read(st, t);
        if index >= 0 && SlotIn(st, Child(index, k.prefix[d - 1])) then Some(Child(index, k.prefix[d - 1])) else None
  }

  lemma {:induction false} PlaceAt(st: Store, own: Owners, k: Place, d: nat)
    requires Forest(st, own) && d <= |k.prefix| && SlotAt(st, k, d).Some?
    ensures PlaceOf(own, SlotAt(st, k, d).value) == k.(prefix := k.prefix[..d])
    ensures SlotOk(st, own, SlotAt(st, k, d).value, Read(st, SlotAt(st, k, d).value))
    decreases d
  {
    if d > 0 {
      PlaceAt(st, own, k, d - 1);
      assert k.prefix[..d] == k.prefix[..d - 1] + [k.prefix[d - 1]];
    }
  }

  lemma {:induction false} FindAt(st: Store, k: Place, d: nat)
    requires d <= |k.prefix| && SlotAt(st, k, d).Some?
    ensures Lookup(st, k) == FindFrom(st, Read(st, SlotAt(st, k, d).value), k.prefix[d..])
    decreases d
  {
    if d == 0 {
      assert k.prefix[0..] == k.prefix;
    } else {
      FindAt(st, k, d - 1);
      assert k.prefix[d - 1..][1..] == k.prefix[d..];
    }
  }

  /** Slots that refer to nodes keep doing so, hence paths stay. */
  ghost predicate Extends(st: Store, st': Store) {
    forall u :: SlotIn(st, u) ==> SlotIn(st', u) && (Read(st, u) >= 0 ==> Read(st', u) == Read(st, u))
  }

  lemma {:induction false} SlotAtStable(st: Store, st': Store, k: Place, d: nat)
    requires Extends(st, st') && d <= |k.prefix| && SlotAt(st, k, d).Some?
    ensures SlotAt(st', k, d) == SlotAt(st, k, d)
    decreases d
  {
    if d > 0 { SlotAtStable(st, st', k, d - 1); }
  }

  // ---------- the trie as a map ----------

  /** First insert wins. */
  function InsertFirst(contents: map<Chunked, int>, key: Chunked, value: int): map<Chunked, int> {
    if key in contents then contents else contents[key := value]
  }

  function InsertAll(inserts: seq<(Chunked, int)>): map<Chunked, int> {
    if inserts == [] then map[]
    else InsertFirst(InsertAll(inserts[..|inserts| - 1]), inserts[|inserts| - 1].0, inserts[|inserts| - 1].1)
  }

  /** The first insert of exactly this key. */
  function FirstInsert(inserts: seq<(Chunked, int)>, key: Chunked): Option<int> {
    if inserts == [] then None
    else if inserts[0].0 == key then Some(inserts[0].1)
    else FirstInsert(inserts[1..], key)
  }

  ghost predicate Inserted(inserts: seq<(Chunked, int)>, key: Chunked) {
    exists i :: 0 <= i < |inserts| && inserts[i].0 == key
  }

  lemma InsertedAppend(inserts: seq<(Chunked, int)>, last: (Chunked, int), key: Chunked)
    ensures Inserted(inserts + [last], key) <==> Inserted(inserts, key) || last.0 == key
  {
    var all := inserts + [last];
    assert all[|inserts|] == last;
    if i :| 0 <= i < |inserts| && inserts[i].0 == key { assert all[i].0 == key; }
  }

  /** After any sequence of inserts, exactly the inserted keys are present, each with the
      value of its first insert. */
  lemma {:induction false} InsertAllIsFirstInsert(inserts: seq<(Chunked, int)>, key: Chunked)
    ensures key in InsertAll(inserts) <==> Inserted(inserts, key)
    ensures FirstInsert(inserts, key) == if key in InsertAll(inserts) then Some(InsertAll(inserts)[key]) else None
  {
    if inserts != [] {
      hide Inserted, FirstInsert;
      var front, last := inserts[..|inserts| - 1], inserts[|inserts| - 1];
      InsertAllIsFirstInsert(front, key);
      FirstInsertAppend(front, last, key);
      InsertedAppend(front, last, key);
      assert inserts == front + [last];
    }
  }

  lemma {:induction false} FirstInsertAppend(inserts: seq<(Chunked, int)>, last: (Chunked, int), key: Chunked)
    ensures FirstInsert(inserts + [last], key) ==
            if FirstInsert(inserts, key).Some? then FirstInsert(inserts, key)
            else if last.0 == key then Some(last.1) else None
  {
    if inserts == [] {
      assert FirstInsert([], key) == None;
    } else {
      assert (inserts + [last])[1..] == inserts[1..] + [last];
      FirstInsertAppend(inserts[1..], last, key);
    }
  }

  ghost predicate Agrees(st: Store, own: Owners, contents: map<Chunked, int>) {
    && Forest(st, own)
    && |contents| == |st.values|
    && forall k: Chunked :: Lookup(st, KeyOf(k)) == if k in contents then Some(contents[k]) else None
  }

  lemma OneValuePerKey(st: Store, own: Owners, contents: map<Chunked, int>)
    requires Agrees(st, own, contents)
    ensures |contents| == |st.values|
  {}

  /** The slot is the missing continuation of the key's path after d chunks. */
  ghost predicate Missing(st: Store, own: Owners, s: Slot, k: Place, d: nat) {
    && Sizes(st, own) && |k.prefix| == k.count && d <= |k.prefix| && !SlotIn(st, s)
    && match s
       case Meta(c, m) => d == 0 && c == k.count && m == k.meta
       case Child(n, b) =>
         d > 0 && n < |st.nodes| && b == k.prefix[d - 1]
         && SlotAt(st, k, d - 1).Some? && Read(st, SlotAt(st, k, d - 1).value) == n
  }

  lemma MissingPlace(st: Store, own: Owners, s: Slot, k: Place, d: nat)
    requires Forest(st, own) && Missing(st, own, s, k, d)
    ensures PlaceOf(own, s) == k.(prefix := k.prefix[..d])
    ensures PlaceOf(own, s).prefix + k.prefix[d..] == k.prefix
    ensures Addable(st, own, s, k.prefix[d..])
    ensures Lookup(st, k) == None
  {
    if d > 0 {
      PlaceAt(st, own, k, d - 1);
      FindAt(st, k, d - 1);
      assert k.prefix[..d] == k.prefix[..d - 1] + [k.prefix[d - 1]];
    }
  }

  lemma AddNew(st: Store, own: Owners, s: Slot, k: Place, d: nat, value: int)
    requires Forest(st, own) && Missing(st, own, s, k, d)
    ensures Lookup(AddSuffix(st, s, k.prefix[d..], value), k) == Some(value)
  {
    hide FindFrom, Reverse, AddSuffix, Forest, SlotAt, Extends;
    var chunks := k.prefix[d..];
    var st' := AddSuffix(st, s, chunks, value);
    MissingPlace(st, own, s, k, d);
    AddExtends(st, own, s, chunks, value);
    AddRootSelf(st, s, chunks, value);
    if d == 0 {
      assert k.prefix[0..] == k.prefix;
    } else {
      AddNewChild(st, st', k, d, s);
      FindAt(st', k, d);
    }
  }

  lemma AddNewChild(st: Store, st': Store, k: Place, d: nat, s: Slot)
    requires 0 < d <= |k.prefix| && SlotAt(st, k, d - 1).Some? && Extends(st, st') && SlotIn(st', s)
    requires Read(st, SlotAt(st, k, d - 1).value) >= 0
    requires s == Child(Read(st, SlotAt(st, k, d - 1).value), k.prefix[d - 1])
    ensures SlotAt(st', k, d) == Some(s)
  {
    SlotAtStable(st, st', k, d - 1);
  }

  lemma AddRootSelf(st: Store, s: Slot, chunks: seq<Byte>, value: int)
    requires |st.reverseSuffixes| == |st.values| && (s.Child? ==> s.node < |st.nodes|)
    ensures FindFrom(AddSuffix(st, s, chunks, value), FromReverseSuffixesIndex(|st.reverseSuffixes|), chunks) == Some(value)
  {
    ReverseTwice(chunks);
  }

  lemma AddExtends(st: Store, own: Owners, s: Slot, chunks: seq<Byte>, value: int)
    requires Addable(st, own, s, chunks)
    ensures Extends(st, AddSuffix(st, s, chunks, value))
    ensures SlotIn(AddSuffix(st, s, chunks, value), s)
    ensures Read(AddSuffix(st, s, chunks, value), s) == FromReverseSuffixesIndex(|st.reverseSuffixes|)
  {}

  lemma AddOther(st: Store, own: Owners, s: Slot, k: Place, d: nat, value: int, other: Place)
    requires Forest(st, own) && Missing(st, own, s, k, d)
    requires other != k && |other.prefix| == other.count
    ensures Lookup(AddSuffix(st, s, k.prefix[d..], value), other) == Lookup(st, other)
  {
    hide Reverse, FindFrom;
    MissingPlace(st, own, s, k, d);
    var root := Meta(other.count, other.meta);
    WithSlotReads(st.(reverseSuffixes := st.reverseSuffixes + [Reverse(k.prefix[d..])], values := st.values + [value]),
                  s, FromReverseSuffixesIndex(|st.reverseSuffixes|), root);
    assert [] + other.prefix == other.prefix;
    if SlotIn(st, root) {
      AddFrame(st, own, s, k.prefix[d..], value, root, other.prefix);
    } else if root == s {
      AddRootOther(st, s, k.prefix[d..], value, other.prefix);
    }
  }

  lemma AddRootOther(st: Store, s: Slot, chunks: seq<Byte>, value: int, other: seq<Byte>)
    requires s.Meta? && |st.reverseSuffixes| == |st.values| && |other| == |chunks| && other != chunks
    ensures FindFrom(AddSuffix(st, s, chunks, value), FromReverseSuffixesIndex(|st.reverseSuffixes|), other) == None
  {
    ReverseTwice(chunks);
  }

  lemma AddAgrees(st: Store, own: Owners, contents: map<Chunked, int>, s: Slot, key: Chunked, d: nat, value: int)
    requires Agrees(st, own, contents) && Missing(st, own, s, KeyOf(key), d)
    ensures s.Child? ==> s.node < |own.nodes|
    ensures key !in contents
    ensures Agrees(AddSuffix(st, s, key.chunks[d..], value), AddOwner(own, s, key.chunks[d..]), contents[key := value])
  {
    hide FindFrom, Reverse, Lookup;
    var k := KeyOf(key);
    MissingPlace(st, own, s, k, d);
    assert Lookup(st, KeyOf(key)) == None;
    AddForest(st, own, s, k.prefix[d..], value);
    AddNew(st, own, s, k, d, value);
    forall c: Chunked | c != key
      ensures Lookup(AddSuffix(st, s, k.prefix[d..], value), KeyOf(c)) == Lookup(st, KeyOf(c))
    {
      if KeyOf(c) == k { KeyOfInjective(c, key); }
      AddOther(st, own, s, k, d, value, KeyOf(c));
    }
  }

  lemma SplitAgrees(st: Store, own: Owners, contents: map<Chunked, int>, s: Slot)
    requires Agrees(st, own, contents) && Splittable(st, own, s)
    ensures Agrees(SplitSuffix(st, s), SplitOwner(st, own, s), contents)
  {
    hide FindFrom, Reverse;
    var st' := SplitSuffix(st, s);
    SplitForest(st, own, s);
    forall c: Chunked
      ensures Lookup(st', KeyOf(c)) == Lookup(st, KeyOf(c))
    {
      var root := Meta(KeyOf(c).count, KeyOf(c).meta);
      SplitReads(st, own, s, root);
      if SlotIn(st, root) { SplitFrame(st, own, s, root, c.chunks); }
    }
  }

  lemma SplitExtends(st: Store, own: Owners, s: Slot)
    requires Splittable(st, own, s)
    ensures Extends(st, SplitSuffix(st, s))
    ensures SlotIn(SplitSuffix(st, s), s) && Read(SplitSuffix(st, s), s) == |st.nodes|
  {
    hide SplitSuffix;
    forall u | SlotIn(st, u)
      ensures SlotIn(SplitSuffix(st, s), u) && (Read(st, u) >= 0 ==> Read(SplitSuffix(st, s), u) == Read(st, u))
    {
      SplitReads(st, own, s, u);
    }
    SplitReads(st, own, s, s);
  }

  /** A slot on the path of a key that ends there holds the key's value. */
  lemma FullMatch(st: Store, own: Owners, contents: map<Chunked, int>, key: Chunked)
    requires Agrees(st, own, contents) && SlotAt(st, KeyOf(key), |key.chunks|).Some?
    ensures key in contents
  {
    PlaceAt(st, own, KeyOf(key), |key.chunks|);
    FindAt(st, KeyOf(key), |key.chunks|);
    assert Lookup(st, KeyOf(key)) != None;
  }

  /** An unfinished path through a suffix can be split there, and goes on at the new node. */
  lemma SplitOnPath(st: Store, own: Owners, contents: map<Chunked, int>, key: Chunked, d: nat)
    requires Agrees(st, own, contents) && d < |key.chunks| && SlotAt(st, KeyOf(key), d).Some?
    requires Read(st, SlotAt(st, KeyOf(key), d).value) < 0
    ensures var s := SlotAt(st, KeyOf(key), d).value;
            && Splittable(st, own, s)
            && Agrees(SplitSuffix(st, s), SplitOwner(st, own, s), contents)
            && SlotAt(SplitSuffix(st, s), KeyOf(key), d) == Some(s)
            && SlotIn(SplitSuffix(st, s), s) && Read(SplitSuffix(st, s), s) == |st.nodes|
  {
    hide SplitSuffix, SplitOwner, Lookup, SlotAt;
    var s := SlotAt(st, KeyOf(key), d).value;
    PlaceAt(st, own, KeyOf(key), d);
    SplitDefined(st, own, s);
    SplitAgrees(st, own, contents, s);
    SplitExtends(st, own, s);
    SlotAtStable(st, SplitSuffix(st, s), KeyOf(key), d);
  }

  /** A path starts at the key's root slot, or the root is missing. */
  lemma RootOnPath(st: Store, own: Owners, contents: map<Chunked, int>, key: Chunked)
    requires Agrees(st, own, contents)
    ensures key.chunks[0..] == key.chunks
    ensures var root := Meta(KeyOf(key).count, KeyOf(key).meta);
            if SlotIn(st, root) then SlotAt(st, KeyOf(key), 0) == Some(root)
            else Missing(st, own, root, KeyOf(key), 0)
  {}

  /** At a node on the path: either the child exists and is on the path, or it is missing. */
  lemma NodeOnPath(st: Store, own: Owners, contents: map<Chunked, int>, key: Chunked, d: nat)
    requires Agrees(st, own, contents) && d < |key.chunks| && SlotAt(st, KeyOf(key), d).Some?
    requires Read(st, SlotAt(st, KeyOf(key), d).value) >= 0
    ensures var child := Child(Read(st, SlotAt(st, KeyOf(key), d).value), key.chunks[d]);
            && child.node < |st.nodes|
            && if SlotIn(st, child) then SlotAt(st, KeyOf(key), d + 1) == Some(child)
               else Missing(st, own, child, KeyOf(key), d + 1)
  {
    PlaceAt(st, own, KeyOf(key), d);
  }

  class CheckpointsTrie {
    var metadata: map<nat, map<nat, int>>
    var trieNodes: seq<map<Byte, int>>
    var reverseSuffixes: seq<seq<Byte>>
    var values: seq<int>

    ghost var contents: map<Chunked, int>
    ghost var owners: Owners

    function Snapshot(): Store
      reads this
    {
      Store(metadata, trieNodes, reverseSuffixes, values)
    }

    /** The tables form an intact forest that represents exactly `contents`, one stored
        value per key. */
    ghost predicate Valid()
      reads this
    {
      Agrees(Snapshot(), owners, contents)
    }

    constructor ()
      ensures Valid() && contents == map[]
    {
      metadata, trieNodes, reverseSuffixes, values := map[], [], [], [];
      contents, owners := map[], Owners([], [], [], []);
    }

    function FindValueInChunks(index: int, chunks: seq<Byte>): (found: Option<int>)
      requires NeverThrows(Snapshot(), index, chunks)
      reads this
      ensures found == FindFrom(Snapshot(), index, chunks)
      decreases |chunks|
    {
      if chunks == [] then Some(values[ToReverseSuffixesIndex(index)])
      else if index >= 0 then
        if chunks[0] !in trieNodes[index] then None
        else FindValueInChunks(trieNodes[index][chunks[0]], chunks[1..])
      else if chunks <= Reverse(reverseSuffixes[ToReverseSuffixesIndex(index)]) then
        Some(values[FromReverseSuffixesIndex(index)])
      else None
    }

    method FindValue(state: Chunked) returns (found: Option<int>)
      requires Valid()
      ensures found == if state in contents then Some(contents[state]) else None
    {
      hide FindFrom, Forest, NeverThrows;
      assert Lookup(Snapshot(), KeyOf(state)) == if state in contents then Some(contents[state]) else None;
      if |state.chunks| !in metadata { return None; }
      var lastChunkSizePhaseIndex := 256 * state.lastChunkSize + state.phase;
      if lastChunkSizePhaseIndex !in metadata[|state.chunks|] { return None; }
      ForestNeverThrows(Snapshot(), owners, Meta(|state.chunks|, lastChunkSizePhaseIndex), state.chunks);
      found := FindValueInChunks(metadata[|state.chunks|][lastChunkSizePhaseIndex], state.chunks);
    }

    /** Any sequence of inserts into an empty trie: a key is found exactly if it was inserted,
        with the value of its first insert, and one value is stored for each distinct key. */
    method InsertEach(inserts: seq<(Chunked, int)>)
      requires Valid() && contents == map[]
      modifies this
      ensures Valid() && contents == InsertAll(inserts) && |values| == |contents|
      ensures forall key :: FirstInsert(inserts, key) == if key in contents then Some(contents[key]) else None
    {
      hide Agrees, InsertFirst, FirstInsert;
      var i := 0;
      while i < |inserts|
        invariant 0 <= i <= |inserts| && Valid()
        invariant contents == InsertAll(inserts[..i])
      {
        var _ := Insert(inserts[i].0, inserts[i].1);
        assert inserts[..i + 1][..i] == inserts[..i];
        i := i + 1;
      }
      assert inserts[..|inserts|] == inserts;
      OneValuePerKey(Snapshot(), owners, contents);
      forall key
        ensures FirstInsert(inserts, key) == if key in contents then Some(contents[key]) else None
      {
        InsertAllIsFirstInsert(inserts, key);
      }
    }

    /** First insert wins. The result is false only for the empty key: for any other key the
        recursive results are dropped and the answer is true even if the key was there. */
    method Insert(key: Chunked, value: int) returns (inserted: bool)
      requires Valid()
      modifies this
      ensures Valid()
      ensures contents == InsertFirst(old(contents), key, value)
      ensures inserted <==> !(key in old(contents) && key.chunks == [])
    {
      var count := |key.chunks|;
      var lastChunkSizePhaseIndex := 256 * key.lastChunkSize + key.phase;
      ghost var root := Meta(count, lastChunkSizePhaseIndex);
      ghost var st := Snapshot();
      RootOnPath(st, owners, contents, key);
      hide SlotAt, Agrees, Missing, Reverse, AddSuffix, AddOwner, Forest, Lookup, FindFrom, Read, WithSlot, PlaceOf, SplitSuffix;
      if count !in metadata || lastChunkSizePhaseIndex !in metadata[count] {
        PushSuffix(Meta(count, lastChunkSizePhaseIndex), key.chunks, value, key, 0);
        return true;
      }
      inserted := InsertChunks(Meta(count, lastChunkSizePhaseIndex), key.chunks, value, key);
    }

    /** `slot` is the address of the index to go on from, `chunks` what is left of the key. */
    method InsertChunks(slot: Slot, chunks: seq<Byte>, value: int, ghost key: Chunked) returns (inserted: bool)
      requires Valid()
      requires |chunks| <= |key.chunks| && chunks == key.chunks[|key.chunks| - |chunks|..]
      requires SlotAt(Snapshot(), KeyOf(key), |key.chunks| - |chunks|) == Some(slot)
      modifies this
      ensures Valid()
      ensures contents == InsertFirst(old(contents), key, value)
      ensures inserted <==> chunks != []
      ensures chunks == [] ==> key in old(contents)
      decreases |chunks|, if Read(Snapshot(), slot) < 0 then 1 else 0
    {
      hide SlotAt, Agrees, Missing, Reverse, AddSuffix, AddOwner, SplitSuffix, SplitOwner, Forest, Lookup, FindFrom;
      ghost var d := |key.chunks| - |chunks|;
      ghost var st := Snapshot();
      if |chunks| == 0 {
        FullMatch(st, owners, contents, key);
        return false;
      }
      var index := Read(Snapshot(), slot);
      if index >= 0 {
        NodeOnPath(st, owners, contents, key, d);
        var child := Child(index, chunks[0]);
        assert key.chunks[d + 1..] == chunks[1..];
        if chunks[0] !in trieNodes[index] {
          PushSuffix(child, chunks[1..], value, key, d + 1);
        } else {
          var _ := InsertChunks(child, chunks[1..], value, key);
        }
      } else {
        SplitOnPath(st, owners, contents, key, d);
        PushChunk(slot);
        owners := SplitOwner(st, owners, slot);
        var _ := InsertChunks(slot, chunks, value, key);
      }
      return true;
    }

    /** A new suffix and its value, referred to from the slot missing on the key's path. */
    method PushSuffix(slot: Slot, chunks: seq<Byte>, value: int, ghost key: Chunked, ghost d: nat)
      requires Valid() && Missing(Snapshot(), owners, slot, KeyOf(key), d) && chunks == key.chunks[d..]
      modifies this
      ensures Valid() && key !in old(contents) && contents == old(contents)[key := value]
    {
      hide Agrees, Reverse, Forest, FindFrom, Lookup, SlotAt;
      AddAgrees(Snapshot(), owners, contents, slot, key, d, value);
      owners := AddOwner(owners, slot, chunks);
      contents := contents[key := value];
      reverseSuffixes := reverseSuffixes + [Reverse(chunks)];
      values := values + [value];
      SetSlot(slot, FromReverseSuffixesIndex(|reverseSuffixes| - 1));
    }

    /** `*index = pushChunk(*index)`: the first chunk of the suffix moves to a new node. */
    method PushChunk(slot: Slot)
      requires CanSplit(Snapshot(), slot)
      modifies `metadata, `trieNodes, `reverseSuffixes
      ensures Snapshot() == SplitSuffix(old(Snapshot()), slot)
    {
      var negativeIndex := Read(Snapshot(), slot);
      var j := ToReverseSuffixesIndex(negativeIndex);
      var suffix := reverseSuffixes[j];
      reverseSuffixes := reverseSuffixes[j := suffix[..|suffix| - 1]];
      trieNodes := trieNodes + [map[suffix[|suffix| - 1] := negativeIndex]];
      SetSlot(slot, |trieNodes| - 1);
    }

    /** `*index = value` */
    method SetSlot(slot: Slot, index: int)
      requires slot.Child? ==> slot.node < |trieNodes|
      modifies `metadata, `trieNodes
      ensures Snapshot() == WithSlot(old(Snapshot()), slot, index)
    {
      match slot
      case Meta(c, m) =>
        var entries: map<nat, int> := (if c in metadata then metadata[c] else map[])[m := index];
        metadata := metadata[c := entries];
      case Child(n, b) =>
        var children: map<Byte, int> := trieNodes[n][b := index];
        trieNodes := trieNodes[n := children];
    }
  }
}
