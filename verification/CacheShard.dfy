/**
 One shard of the API-key resolver cache: a map from key hash to entry, and a recency list with
 the most recently used hash in front. The reference it is measured against is the map that
 never evicts and never expires.
 */
module CacheShard {
  import opened Basics

  /**
   What a store load produced. A snapshot stands for a key with its user, or for the answer that there is no such key;
   `generation` is the one the load had read, which only claims look at.
   */
  datatype Loaded = Loaded(snapshot: int, generation: nat)

  datatype Entry = Entry(value: Loaded, until: int)

  datatype Shard = Shard(byHash: map<string, Entry>, recency: seq<string>, maxEntries: nat)

  datatype Op =
    | Lookup(hash: string, now: int)
    | Store(hash: string, value: Loaded, until: int)
    | RemoveExpired(now: int)
    | Clear

  // ---------- the recency list ----------

  /** list.Remove */
  function Drop(list: seq<string>, h: string): (rest: seq<string>)
    ensures forall x :: x in rest <==> x in list && x != h
  {
    if list == [] then []
    else if list[0] == h then Drop(list[1..], h)
    else [list[0]] + Drop(list[1..], h)
  }

  predicate Distinct(list: seq<string>) {
    forall i, j :: 0 <= i < j < |list| ==> list[i] != list[j]
  }

  /** `list` with only the elements of `kept`, in the same order. */
  function Restrict(list: seq<string>, kept: set<string>): (rest: seq<string>)
    ensures forall x :: x in rest <==> x in list && x in kept
  {
    if list == [] then []
    else (if list[0] in kept then [list[0]] else []) + Restrict(list[1..], kept)
  }

  // ---------- the operations ----------

  predicate Hit(s: Shard, hash: string, now: int) {
    hash in s.byHash && now < s.byHash[hash].until
  }

  function Remove(s: Shard, hash: string): Shard {
    s.(byHash := s.byHash - {hash}, recency := Drop(s.recency, hash))
  }

  function AfterLookup(s: Shard, hash: string, now: int): Shard {
    if Hit(s, hash, now) then s.(recency := [hash] + Drop(s.recency, hash))
    else if hash in s.byHash then Remove(s, hash)
    else s
  }

  function Result(s: Shard, hash: string, now: int): Option<Loaded> {
    if Hit(s, hash, now) then Some(s.byHash[hash].value) else None
  }

  /** The least recently used entry goes first, until the shard is within its capacity. */
  function Evict(s: Shard): Shard
    decreases |s.recency|
  {
    if |s.byHash| <= s.maxEntries || s.recency == [] then s
    else
      var last := |s.recency| - 1;
      Evict(s.(byHash := s.byHash - {s.recency[last]}, recency := s.recency[..last]))
  }

  function Inserted(s: Shard, hash: string, value: Loaded, until: int): Shard {
    s.(byHash := s.byHash[hash := Entry(value, until)], recency := [hash] + Drop(s.recency, hash))
  }

  function AfterStore(s: Shard, hash: string, value: Loaded, until: int): Shard {
    Evict(Inserted(s, hash, value, until))
  }

  function Fresh(s: Shard, now: int): set<string> {
    set h | h in s.byHash && now < s.byHash[h].until
  }

  function AfterExpiry(s: Shard, now: int): Shard {
    s.(byHash := map h | h in s.byHash && now < s.byHash[h].until :: s.byHash[h],
       recency := Restrict(s.recency, Fresh(s, now)))
  }

  function Apply(s: Shard, op: Op): Shard {
    match op
    case Lookup(hash, now) => AfterLookup(s, hash, now)
    case Store(hash, value, until) => AfterStore(s, hash, value, until)
    case RemoveExpired(now) => AfterExpiry(s, now)
    case Clear => s.(byHash := map[], recency := [])
  }

  // ---------- what every operation keeps ----------

  ghost predicate SameEntries(s: Shard) {
    Distinct(s.recency) && forall h :: h in s.recency <==> h in s.byHash
  }

  /** Map and list hold the same entries, each once, and no more than the capacity. */
  ghost predicate Coherent(s: Shard) {
    SameEntries(s) && |s.byHash| <= s.maxEntries
  }

  lemma {:induction false} DropKeepsOrder(list: seq<string>, h: string)
    requires Distinct(list)
    ensures Distinct(Drop(list, h))
    ensures h in list ==> |Drop(list, h)| == |list| - 1
    ensures h !in list ==> Drop(list, h) == list
  {
    if list != [] {
      assert list == [list[0]] + list[1..];
      DropKeepsOrder(list[1..], h);
      assert list[0] !in list[1..];
      if list[0] != h {
        assert list[0] !in Drop(list[1..], h);
      }
    }
  }

  lemma {:induction false} RestrictKeepsOrder(list: seq<string>, kept: set<string>)
    requires Distinct(list)
    ensures Distinct(Restrict(list, kept))
  {
    if list != [] {
      RestrictKeepsOrder(list[1..], kept);
    }
  }

  lemma {:induction false} DistinctSize(list: seq<string>, keys: set<string>)
    requires Distinct(list) && forall h :: h in list <==> h in keys
    ensures |list| == |keys|
  {
    if list == [] {
      assert keys == {};
    } else {
      var n := |list| - 1;
      assert list == list[..n] + [list[n]];
      DistinctSize(list[..n], keys - {list[n]});
    }
  }

  /** A shard without the last hash of its recency list. */
  function Shorter(s: Shard): Shard
    requires s.recency != []
  {
    var last := |s.recency| - 1;
    s.(byHash := s.byHash - {s.recency[last]}, recency := s.recency[..last])
  }

  lemma WithoutLast(list: seq<string>)
    requires list != [] && Distinct(list)
    ensures var last := |list| - 1;
            Distinct(list[..last]) && forall h :: h in list[..last] <==> h in list && h != list[last]
  {
    assert list == list[..|list| - 1] + [list[|list| - 1]];
  }

  lemma ShorterKeeps(s: Shard)
    requires SameEntries(s) && s.recency != []
    ensures SameEntries(Shorter(s)) && |Shorter(s).byHash| == |s.byHash| - 1
  {
    var last := |s.recency| - 1;
    var victim := s.recency[last];
    assert victim in s.recency;
    WithoutLast(s.recency);
    assert (s.byHash - {victim}).Keys == s.byHash.Keys - {victim};
    assert |(s.byHash - {victim}).Keys| == |s.byHash - {victim}|;
  }

  /** A shard that is one entry over loses exactly the last hash of its recency list. */
  lemma EvictOne(s: Shard)
    requires SameEntries(s) && |s.byHash| == s.maxEntries + 1
    ensures s.recency != [] && Evict(s) == Shorter(s) && Coherent(Evict(s))
  {
    DistinctSize(s.recency, s.byHash.Keys);
    assert |s.byHash.Keys| == |s.byHash|;
    ShorterKeeps(s);
    assert Evict(s) == Evict(Shorter(s));
  }

  lemma InsertedShape(s: Shard, hash: string, value: Loaded, until: int)
    requires Coherent(s)
    ensures SameEntries(Inserted(s, hash, value, until))
    ensures |Inserted(s, hash, value, until).byHash| <= s.maxEntries + 1
  {
    DropKeepsOrder(s.recency, hash);
    var s1 := Inserted(s, hash, value, until);
    assert s1.byHash.Keys == s.byHash.Keys + {hash};
    assert hash !in Drop(s.recency, hash);
  }

  /** After a store the list is the new front, less at most the last hash, which leaves the map too. */
  lemma StoreEvicts(s: Shard, hash: string, value: Loaded, until: int)
    requires Coherent(s)
    ensures var s1, s2 := Inserted(s, hash, value, until), AfterStore(s, hash, value, until);
            && Coherent(s2) && s2.maxEntries == s.maxEntries
            && (s2 == s1 || (s1.recency != [] && s2 == Shorter(s1)))
  {
    InsertedShape(s, hash, value, until);
    var s1 := Inserted(s, hash, value, until);
    if |s1.byHash| == s.maxEntries + 1 {
      EvictOne(s1);
    }
  }

  lemma ApplyKeeps(s: Shard, op: Op)
    requires Coherent(s)
    ensures Coherent(Apply(s, op)) && Apply(s, op).maxEntries == s.maxEntries
  {
    match op
    case Lookup(hash, now) =>
      DropKeepsOrder(s.recency, hash);
      assert (s.byHash - {hash}).Keys == s.byHash.Keys - {hash};
    case Store(hash, value, until) =>
      StoreEvicts(s, hash, value, until);
    case RemoveExpired(now) =>
      RestrictKeepsOrder(s.recency, Fresh(s, now));
      var s' := AfterExpiry(s, now);
      assert s'.byHash.Keys == Fresh(s, now);
      SubsetSize(Fresh(s, now), s.byHash.Keys);
    case Clear =>
  }

  // ---------- whole runs ----------

  function Start(maxEntries: nat): Shard {
    Shard(map[], [], maxEntries)
  }

  function Run(maxEntries: nat, ops: seq<Op>): Shard {
    if ops == [] then Start(maxEntries) else Apply(Run(maxEntries, ops[..|ops| - 1]), ops[|ops| - 1])
  }

  lemma {:induction false} RunCoherent(maxEntries: nat, ops: seq<Op>)
    ensures Coherent(Run(maxEntries, ops)) && Run(maxEntries, ops).maxEntries == maxEntries
  {
    if ops != [] {
      RunCoherent(maxEntries, ops[..|ops| - 1]);
      ApplyKeeps(Run(maxEntries, ops[..|ops| - 1]), ops[|ops| - 1]);
    }
  }

  /** The reference: every store since the last clear, the latest one for each hash. */
  function Unbounded(ops: seq<Op>): map<string, Entry> {
    if ops == [] then map[]
    else
      var before := Unbounded(ops[..|ops| - 1]);
      match ops[|ops| - 1]
      case Store(hash, value, until) => before[hash := Entry(value, until)]
      case Clear => map[]
      case _ => before
  }

  lemma {:induction false} EvictShrinks(s: Shard)
    ensures forall h :: h in Evict(s).byHash ==> h in s.byHash && Evict(s).byHash[h] == s.byHash[h]
    decreases |s.recency|
  {
    if !(|s.byHash| <= s.maxEntries || s.recency == []) {
      var last := |s.recency| - 1;
      EvictShrinks(s.(byHash := s.byHash - {s.recency[last]}, recency := s.recency[..last]));
    }
  }

  /** An operation adds nothing to a shard but what it stores. */
  lemma ApplyAddsOnlyStored(s: Shard, op: Op, h: string)
    requires h in Apply(s, op).byHash
    ensures || (h in s.byHash && Apply(s, op).byHash[h] == s.byHash[h])
            || (op.Store? && op.hash == h && Apply(s, op).byHash[h] == Entry(op.value, op.until))
  {
    if op.Store? {
      EvictShrinks(Inserted(s, op.hash, op.value, op.until));
    }
  }

  /** A shard never holds anything but the latest store for a hash since the last clear. */
  lemma {:induction false} RunWithinUnbounded(maxEntries: nat, ops: seq<Op>)
    ensures forall h :: h in Run(maxEntries, ops).byHash ==>
              h in Unbounded(ops) && Run(maxEntries, ops).byHash[h] == Unbounded(ops)[h]
  {
    if ops != [] {
      var n := |ops| - 1;
      RunWithinUnbounded(maxEntries, ops[..n]);
      match ops[n]
      case Store(hash, value, until) =>
        var s := Run(maxEntries, ops[..n]);
        EvictShrinks(Inserted(s, hash, value, until));
      case _ =>
    }
  }

  /** Every hit returns the result most recently stored for that hash, and it has not expired. */
  lemma HitIsLatestStore(maxEntries: nat, ops: seq<Op>, hash: string, now: int)
    requires Result(Run(maxEntries, ops), hash, now).Some?
    ensures hash in Unbounded(ops)
    ensures Result(Run(maxEntries, ops), hash, now).value == Unbounded(ops)[hash].value
    ensures now < Unbounded(ops)[hash].until
  {
    RunWithinUnbounded(maxEntries, ops);
  }

  /** The position in a run of the last operation that used a hash: a store, or a lookup that hit. */
  function LastUsed(maxEntries: nat, ops: seq<Op>, h: string): int {
    if ops == [] then -1
    else
      var n := |ops| - 1;
      match ops[n]
      case Store(hash, _, _) => if hash == h then n else LastUsed(maxEntries, ops[..n], h)
      case Lookup(hash, now) =>
        if hash == h && Hit(Run(maxEntries, ops[..n]), hash, now) then n else LastUsed(maxEntries, ops[..n], h)
      case _ => LastUsed(maxEntries, ops[..n], h)
  }

  lemma {:induction false} LastUsedInRun(maxEntries: nat, ops: seq<Op>, h: string)
    ensures LastUsed(maxEntries, ops, h) < |ops|
  {
    if ops != [] {
      LastUsedInRun(maxEntries, ops[..|ops| - 1], h);
    }
  }

  /** `list` runs from the latest use to the earliest. */
  ghost predicate ByUse(list: seq<string>, maxEntries: nat, ops: seq<Op>) {
    forall i, j :: 0 <= i < j < |list| ==>
      LastUsed(maxEntries, ops, list[i]) > LastUsed(maxEntries, ops, list[j])
  }

  /** a keeps the order of b: its elements appear in b at increasing positions. */
  ghost predicate Embeds(a: seq<string>, b: seq<string>, at: seq<int>) {
    && |at| == |a|
    && (forall i :: 0 <= i < |a| ==> 0 <= at[i] < |b| && a[i] == b[at[i]])
    && (forall i, j :: 0 <= i < j < |a| ==> at[i] < at[j])
  }

  function Shifted(at: seq<int>): (r: seq<int>)
    ensures |r| == |at| && forall i :: 0 <= i < |at| ==> r[i] == at[i] + 1
  {
    seq(|at|, i requires 0 <= i < |at| => at[i] + 1)
  }

  lemma EmbedLater(a: seq<string>, b: seq<string>, at: seq<int>, head: string)
    requires Embeds(a, b, at)
    ensures Embeds(a, [head] + b, Shifted(at))
  {
  }

  lemma EmbedBoth(a: seq<string>, b: seq<string>, at: seq<int>, head: string)
    requires Embeds(a, b, at)
    ensures Embeds([head] + a, [head] + b, [0] + Shifted(at))
  {
  }

  lemma {:induction false} DropEmbeds(list: seq<string>, h: string) returns (at: seq<int>)
    ensures Embeds(Drop(list, h), list, at)
  {
    if list == [] {
      at := [];
    } else {
      var rest := DropEmbeds(list[1..], h);
      assert list == [list[0]] + list[1..];
      EmbedLater(Drop(list[1..], h), list[1..], rest, list[0]);
      EmbedBoth(Drop(list[1..], h), list[1..], rest, list[0]);
      at := if list[0] == h then Shifted(rest) else [0] + Shifted(rest);
    }
  }

  lemma {:induction false} RestrictEmbeds(list: seq<string>, kept: set<string>) returns (at: seq<int>)
    ensures Embeds(Restrict(list, kept), list, at)
  {
    if list == [] {
      at := [];
    } else {
      var rest := RestrictEmbeds(list[1..], kept);
      assert list == [list[0]] + list[1..];
      if list[0] in kept {
        EmbedBoth(Restrict(list[1..], kept), list[1..], rest, list[0]);
        at := [0] + Shifted(rest);
      } else {
        EmbedLater(Restrict(list[1..], kept), list[1..], rest, list[0]);
        at := Shifted(rest);
      }
    }
  }

  lemma EmbedKeepsUse(a: seq<string>, b: seq<string>, at: seq<int>, maxEntries: nat, ops: seq<Op>)
    requires Embeds(a, b, at) && ByUse(b, maxEntries, ops)
    ensures ByUse(a, maxEntries, ops)
  {
  }

  /** Moving the hash of the latest operation to the front keeps the list in order of use. */
  lemma FrontKeepsUse(list: seq<string>, h: string, maxEntries: nat, ops: seq<Op>)
    requires ops != [] && ByUse(list, maxEntries, ops[..|ops| - 1])
    requires LastUsed(maxEntries, ops, h) == |ops| - 1
    requires forall x :: x != h ==> LastUsed(maxEntries, ops, x) == LastUsed(maxEntries, ops[..|ops| - 1], x)
    ensures ByUse([h] + Drop(list, h), maxEntries, ops)
  {
    var rest := Drop(list, h);
    var at := DropEmbeds(list, h);
    EmbedKeepsUse(rest, list, at, maxEntries, ops[..|ops| - 1]);
    forall i | 0 <= i < |rest|
      ensures rest[i] != h && LastUsed(maxEntries, ops, rest[i]) < |ops| - 1
    {
      assert rest[i] in rest;
      LastUsedInRun(maxEntries, ops[..|ops| - 1], rest[i]);
    }
  }

  lemma {:induction false} RunByUse(maxEntries: nat, ops: seq<Op>)
    ensures ByUse(Run(maxEntries, ops).recency, maxEntries, ops)
  {
    if ops != [] {
      var n := |ops| - 1;
      var s := Run(maxEntries, ops[..n]);
      RunByUse(maxEntries, ops[..n]);
      RunCoherent(maxEntries, ops[..n]);
      match ops[n]
      case Lookup(hash, now) =>
        if Hit(s, hash, now) {
          FrontKeepsUse(s.recency, hash, maxEntries, ops);
        } else {
          var at := DropEmbeds(s.recency, hash);
          EmbedKeepsUse(Drop(s.recency, hash), s.recency, at, maxEntries, ops[..n]);
        }
      case Store(hash, value, until) =>
        FrontKeepsUse(s.recency, hash, maxEntries, ops);
        StoreEvicts(s, hash, value, until);
      case RemoveExpired(now) =>
        var at := RestrictEmbeds(s.recency, Fresh(s, now));
        EmbedKeepsUse(Restrict(s.recency, Fresh(s, now)), s.recency, at, maxEntries, ops[..n]);
      case Clear =>
    }
  }

  /**
   In every run, what a store evicts is one hash at most, and every hash that stays was used
   more recently than it.
   */
  lemma EvictionIsLeastRecentlyUsed(maxEntries: nat, ops: seq<Op>, hash: string, value: Loaded, until: int, gone: string, kept: string)
    requires gone in Run(maxEntries, ops).byHash && gone !in Run(maxEntries, ops + [Store(hash, value, until)]).byHash
    requires kept in Run(maxEntries, ops + [Store(hash, value, until)]).byHash
    ensures var after := ops + [Store(hash, value, until)];
            LastUsed(maxEntries, after, gone) < LastUsed(maxEntries, after, kept)
  {
    var after := ops + [Store(hash, value, until)];
    assert after[..|after| - 1] == ops;
    var s := Run(maxEntries, ops);
    RunCoherent(maxEntries, ops);
    StoreInUseOrder(s, maxEntries, ops, hash, value, until);
    StoreEvicts(s, hash, value, until);
    VictimIsLast(s, hash, value, until, gone, kept);
    var list := Inserted(s, hash, value, until).recency;
    LastIsEarliest(list, maxEntries, after, kept);
  }

  lemma StoreInUseOrder(s: Shard, maxEntries: nat, ops: seq<Op>, hash: string, value: Loaded, until: int)
    requires s == Run(maxEntries, ops)
    ensures ByUse(Inserted(s, hash, value, until).recency, maxEntries, ops + [Store(hash, value, until)])
  {
    var after := ops + [Store(hash, value, until)];
    assert after[..|after| - 1] == ops;
    RunByUse(maxEntries, ops);
    FrontKeepsUse(s.recency, hash, maxEntries, after);
  }

  lemma VictimIsLast(s: Shard, hash: string, value: Loaded, until: int, gone: string, kept: string)
    requires Coherent(s) && gone in s.byHash && gone !in AfterStore(s, hash, value, until).byHash
    requires kept in AfterStore(s, hash, value, until).byHash
    ensures var list := Inserted(s, hash, value, until).recency;
            list != [] && gone == list[|list| - 1] && kept in list[..|list| - 1]
  {
    StoreEvicts(s, hash, value, until);
    InsertedShape(s, hash, value, until);
    var s1 := Inserted(s, hash, value, until);
    assert gone in s1.byHash;
    ShorterKeeps(s1);
  }

  lemma LastIsEarliest(list: seq<string>, maxEntries: nat, ops: seq<Op>, kept: string)
    requires ByUse(list, maxEntries, ops) && list != [] && kept in list[..|list| - 1]
    ensures LastUsed(maxEntries, ops, list[|list| - 1]) < LastUsed(maxEntries, ops, kept)
  {
    var j :| 0 <= j < |list| - 1 && list[j] == kept;
  }

  // ---------- what a shard keeps ----------

  /** The map with a hash stored in it. */
  function With(byHash: map<string, Entry>, hash: string, value: Loaded, until: int): map<string, Entry> {
    byHash[hash := Entry(value, until)]
  }

  /**
   A store keeps everything if the map with the new hash is within the capacity. Otherwise it loses exactly one hash:
   the last of the recency list, or for a capacity of zero the one stored.
   */
  lemma StoreLosesOnlyOverflow(s: Shard, hash: string, value: Loaded, until: int)
    requires Coherent(s)
    ensures var full, kept := With(s.byHash, hash, value, until), AfterStore(s, hash, value, until).byHash;
            && (|full| <= s.maxEntries ==> kept == full)
            && (|full| > s.maxEntries ==> kept == full - {Victim(s, hash)} && Victim(s, hash) in full && |kept| == s.maxEntries)
  {
    InsertedShape(s, hash, value, until);
    if |With(s.byHash, hash, value, until)| > s.maxEntries {
      OverflowLosesVictim(s, hash, value, until);
    }
  }

  /** The hash that a store into a full shard evicts. */
  function Victim(s: Shard, hash: string): string {
    if s.recency == [] then hash else s.recency[|s.recency| - 1]
  }

  lemma OverflowLosesVictim(s: Shard, hash: string, value: Loaded, until: int)
    requires Coherent(s) && |With(s.byHash, hash, value, until)| > s.maxEntries
    requires SameEntries(Inserted(s, hash, value, until)) && |With(s.byHash, hash, value, until)| <= s.maxEntries + 1
    ensures var full, kept := With(s.byHash, hash, value, until), AfterStore(s, hash, value, until).byHash;
            kept == full - {Victim(s, hash)} && Victim(s, hash) in full && |kept| == s.maxEntries
  {
    var s1 := Inserted(s, hash, value, until);
    EvictOne(s1);
    ShorterKeeps(s1);
    VictimIsInserted(s, hash, value, until);
  }

  lemma VictimIsInserted(s: Shard, hash: string, value: Loaded, until: int)
    requires Coherent(s) && |With(s.byHash, hash, value, until)| > s.maxEntries
    ensures var list := Inserted(s, hash, value, until).recency;
            list != [] && list[|list| - 1] == Victim(s, hash) && Victim(s, hash) in With(s.byHash, hash, value, until)
  {
    NotStoredBefore(s, hash, value, until);
    if s.recency != [] {
      assert s.recency[|s.recency| - 1] in s.recency;
    }
  }

  lemma InsertedSize(byHash: map<string, Entry>, hash: string, value: Loaded, until: int)
    ensures |With(byHash, hash, value, until)| == |byHash| + if hash in byHash then 0 else 1
  {
    assert With(byHash, hash, value, until).Keys == byHash.Keys + {hash};
    assert |With(byHash, hash, value, until)| == |byHash.Keys + {hash}| && |byHash| == |byHash.Keys|;
    if hash in byHash {
      assert byHash.Keys + {hash} == byHash.Keys;
    }
  }

  /** A store overflows only when the hash is new and the shard is full. */
  lemma NotStoredBefore(s: Shard, hash: string, value: Loaded, until: int)
    requires Coherent(s) && |With(s.byHash, hash, value, until)| > s.maxEntries
    ensures hash !in s.byHash && |s.recency| == s.maxEntries
    ensures Inserted(s, hash, value, until).recency == [hash] + s.recency
  {
    InsertedSize(s.byHash, hash, value, until);
    DropKeepsOrder(s.recency, hash);
    DistinctSize(s.recency, s.byHash.Keys);
    assert |s.byHash| == |s.byHash.Keys|;
  }

  /** The hashes that the operations of a run name. */
  function Hashes(ops: seq<Op>): set<string> {
    set i | 0 <= i < |ops| && (ops[i].Store? || ops[i].Lookup?) :: ops[i].hash
  }

  /** The other hashes used since the last use of h. */
  function UsedSince(maxEntries: nat, ops: seq<Op>, h: string): set<string> {
    set x | x in Hashes(ops) && x != h && LastUsed(maxEntries, ops, x) > LastUsed(maxEntries, ops, h)
  }

  /** An operation that finds a hash expired. */
  predicate Expires(op: Op, h: string, until: int) {
    ((op.Lookup? && op.hash == h) || op.RemoveExpired?) && op.now >= until
  }

  /** No operation since h was last stored found it expired. */
  function NotExpired(ops: seq<Op>, h: string): bool {
    if ops == [] then true
    else
      var op := ops[|ops| - 1];
      if op.Store? && op.hash == h then true
      else NotExpired(ops[..|ops| - 1], h) && (h in Unbounded(ops) ==> !Expires(op, h, Unbounded(ops)[h].until))
  }

  lemma {:induction false} UsedIsNamed(maxEntries: nat, ops: seq<Op>, x: string)
    ensures -1 <= LastUsed(maxEntries, ops, x)
    ensures LastUsed(maxEntries, ops, x) >= 0 ==> x in Hashes(ops)
  {
    if ops != [] {
      UsedIsNamed(maxEntries, ops[..|ops| - 1], x);
    }
  }

  /** Whatever comes before the last hash of the recency list was used since. */
  lemma OthersWereUsedSince(list: seq<string>, maxEntries: nat, ops: seq<Op>)
    requires Distinct(list) && ByUse(list, maxEntries, ops) && list != []
    ensures |list| - 1 <= |UsedSince(maxEntries, ops, list[|list| - 1])|
  {
    var last := |list| - 1;
    var h := list[last];
    var front := set x | x in list[..last];
    WithoutLast(list);
    DistinctSize(list[..last], front);
    forall x | x in front ensures x in UsedSince(maxEntries, ops, h) {
      LastIsEarliest(list, maxEntries, ops, x);
      UsedIsNamed(maxEntries, ops, x);
      UsedIsNamed(maxEntries, ops, h);
    }
    SubsetSize(front, UsedSince(maxEntries, ops, h));
  }

  /** The last operation uses h itself. */
  predicate UsesNow(maxEntries: nat, ops: seq<Op>, h: string)
    requires ops != []
  {
    var op := ops[|ops| - 1];
    (op.Store? && op.hash == h) || (op.Lookup? && op.hash == h && Hit(Run(maxEntries, ops[..|ops| - 1]), h, op.now))
  }

  /** As long as h is not used again, the hashes used since only grow. */
  lemma UsedSinceGrows(maxEntries: nat, ops: seq<Op>, h: string)
    requires ops != [] && !UsesNow(maxEntries, ops, h)
    ensures |UsedSince(maxEntries, ops[..|ops| - 1], h)| <= |UsedSince(maxEntries, ops, h)|
  {
    var n := |ops| - 1;
    var a, b := UsedSince(maxEntries, ops[..n], h), UsedSince(maxEntries, ops, h);
    assert LastUsed(maxEntries, ops, h) == LastUsed(maxEntries, ops[..n], h);
    forall x | x in a ensures x in b {
      assert Hashes(ops[..n]) <= Hashes(ops);
      LastUsedInRun(maxEntries, ops[..n], x);
      LastUsedInRun(maxEntries, ops[..n], h);
      assert LastUsed(maxEntries, ops, x) == LastUsed(maxEntries, ops[..n], x) || LastUsed(maxEntries, ops, x) == n;
    }
    SubsetSize(a, b);
  }

  /** A hash that a store evicts is the last of a list that is one longer than the capacity. */
  lemma EvictedIsLast(s: Shard, op: Op, h: string)
    requires Coherent(s) && op.Store? && h in s.byHash && h !in Apply(s, op).byHash
    ensures var list := Inserted(s, op.hash, op.value, op.until).recency;
            Distinct(list) && |list| == s.maxEntries + 1 && h == list[|list| - 1]
  {
    StoreLosesOnlyOverflow(s, op.hash, op.value, op.until);
    NotStoredBefore(s, op.hash, op.value, op.until);
    InsertedShape(s, op.hash, op.value, op.until);
  }

  lemma EvictedAfterMany(s: Shard, op: Op, h: string, longer: seq<Op>)
    requires Coherent(s) && op.Store? && h in s.byHash && h !in Apply(s, op).byHash
    requires ByUse(Inserted(s, op.hash, op.value, op.until).recency, s.maxEntries, longer)
    ensures s.maxEntries <= |UsedSince(s.maxEntries, longer, h)|
  {
    EvictedIsLast(s, op, h);
    OthersWereUsedSince(Inserted(s, op.hash, op.value, op.until).recency, s.maxEntries, longer);
  }

  /** A store of another hash evicts h only once as many others as the capacity were used since. */
  lemma StoreKeepsRecent(s: Shard, ops: seq<Op>, op: Op, h: string)
    requires s == Run(s.maxEntries, ops) && Coherent(s)
    requires op.Store? && h in s.byHash && |UsedSince(s.maxEntries, ops + [op], h)| < s.maxEntries
    ensures h in Apply(s, op).byHash
  {
    if h !in Apply(s, op).byHash {
      StoreInUseOrder(s, s.maxEntries, ops, op.hash, op.value, op.until);
      EvictedAfterMany(s, op, h, ops + [op]);
    }
  }

  lemma StoredIsThere(s: Shard, h: string, value: Loaded, until: int)
    requires Coherent(s) && s.maxEntries > 0
    ensures h in AfterStore(s, h, value, until).byHash
  {
    StoreLosesOnlyOverflow(s, h, value, until);
    if |With(s.byHash, h, value, until)| > s.maxEntries {
      NotStoredBefore(s, h, value, until);
      assert Victim(s, h) in s.recency;
    }
  }

  /** A step other than a store loses a hash only by clearing, or by finding it expired. */
  lemma StepKeeps(s: Shard, op: Op, h: string)
    requires h in s.byHash && !op.Store? && !op.Clear? && !Expires(op, h, s.byHash[h].until)
    ensures h in Apply(s, op).byHash
  {
  }

  lemma StillThere(maxEntries: nat, ops: seq<Op>, h: string)
    requires ops != [] && h in Unbounded(ops) && NotExpired(ops, h) && !ops[|ops| - 1].Store?
    requires h in Run(maxEntries, ops[..|ops| - 1]).byHash
    ensures h in Run(maxEntries, ops).byHash
  {
    RunWithinUnbounded(maxEntries, ops[..|ops| - 1]);
    StepKeeps(Run(maxEntries, ops[..|ops| - 1]), ops[|ops| - 1], h);
  }

  /**
   In every run a hash is still there if it was stored since the last clear, nothing since then found it expired, and
   fewer other hashes than the capacity were used since its own last use.
   */
  lemma {:induction false} RecentIsKept(maxEntries: nat, ops: seq<Op>, h: string)
    requires h in Unbounded(ops) && NotExpired(ops, h) && |UsedSince(maxEntries, ops, h)| < maxEntries
    ensures h in Run(maxEntries, ops).byHash
  {
    var n := |ops| - 1;
    var op := ops[n];
    var s := Run(maxEntries, ops[..n]);
    RunCoherent(maxEntries, ops[..n]);
    if op.Store? && op.hash == h {
      StoredIsThere(s, h, op.value, op.until);
    } else if !UsesNow(maxEntries, ops, h) {
      UsedSinceGrows(maxEntries, ops, h);
      RecentIsKept(maxEntries, ops[..n], h);
      if op.Store? {
        assert ops == ops[..n] + [op];
        StoreKeepsRecent(s, ops[..n], op, h);
      } else {
        StillThere(maxEntries, ops, h);
      }
    }
  }

  /**
   In every run, a lookup before the expiry of what was last stored for a hash hits and returns it, unless it was
   cleared, something found it expired, or as many other hashes as the capacity were used since its own last use.
   */
  lemma RecentHits(maxEntries: nat, ops: seq<Op>, h: string, now: int)
    requires h in Unbounded(ops) && NotExpired(ops, h) && |UsedSince(maxEntries, ops, h)| < maxEntries
    requires now < Unbounded(ops)[h].until
    ensures Result(Run(maxEntries, ops), h, now) == Some(Unbounded(ops)[h].value)
  {
    RecentIsKept(maxEntries, ops, h);
    RunWithinUnbounded(maxEntries, ops);
  }

  // ---------- the shard as an object ----------

  lemma {:induction false} DropOfRestrict(list: seq<string>, kept: set<string>, h: string)
    ensures Drop(Restrict(list, kept), h) == Restrict(list, kept - {h})
  {
    if list != [] {
      DropOfRestrict(list[1..], kept, h);
      var rest := Restrict(list[1..], kept);
      if list[0] in kept {
        assert ([list[0]] + rest)[1..] == rest;
      } else {
        assert Restrict(list, kept) == rest;
      }
    }
  }

  lemma {:induction false} RestrictToAll(list: seq<string>, kept: set<string>)
    requires forall x :: x in list ==> x in kept
    ensures Restrict(list, kept) == list
  {
    if list != [] {
      RestrictToAll(list[1..], kept);
    }
  }

  /** A shard with only the entries of `kept`. */
  function Narrow(s: Shard, kept: set<string>): Shard {
    s.(byHash := map h | h in s.byHash && h in kept :: s.byHash[h], recency := Restrict(s.recency, kept))
  }

  /** The entries left when the scan for expired ones has not yet visited `todo`. */
  function Unscanned(s: Shard, todo: set<string>, now: int): set<string> {
    set h | h in s.byHash && (h in todo || now < s.byHash[h].until)
  }

  lemma ScanStart(s: Shard, now: int)
    requires SameEntries(s)
    ensures Narrow(s, Unscanned(s, s.byHash.Keys, now)) == s
  {
    RestrictToAll(s.recency, Unscanned(s, s.byHash.Keys, now));
  }

  lemma ScanStep(s: Shard, todo: set<string>, now: int, h: string)
    requires h in todo && todo <= s.byHash.Keys
    ensures h in Narrow(s, Unscanned(s, todo, now)).byHash
    ensures Narrow(s, Unscanned(s, todo, now)).byHash[h] == s.byHash[h]
    ensures Narrow(s, Unscanned(s, todo - {h}, now))
            == if now < s.byHash[h].until then Narrow(s, Unscanned(s, todo, now))
               else Remove(Narrow(s, Unscanned(s, todo, now)), h)
  {
    var kept := Unscanned(s, todo, now);
    if now < s.byHash[h].until {
      assert Unscanned(s, todo - {h}, now) == kept;
    } else {
      assert Unscanned(s, todo - {h}, now) == kept - {h};
      DropOfRestrict(s.recency, kept, h);
    }
  }

  lemma ScanEnd(s: Shard, now: int)
    ensures Narrow(s, Unscanned(s, {}, now)) == AfterExpiry(s, now)
  {
    assert Unscanned(s, {}, now) == Fresh(s, now);
  }

  lemma InsertAgain(byHash: map<string, Entry>, hash: string, e: Entry)
    ensures (byHash - {hash})[hash := e] == byHash[hash := e]
  {
  }

  class AuthCacheShard {
    var byHash: map<string, Entry>
    var recency: seq<string>
    const maxEntries: nat

    ghost function View(): Shard
      reads this
    {
      Shard(byHash, recency, maxEntries)
    }

    constructor (maxEntries: nat)
      ensures View() == Start(maxEntries)
    {
      byHash, recency := map[], [];
      this.maxEntries := maxEntries;
    }

    method RemoveEntry(hash: string)
      modifies this
      ensures View() == Remove(old(View()), hash)
    {
      byHash := byHash - {hash};
      recency := Drop(recency, hash);
    }

    method LoadCachedEntry(hash: string, now: int) returns (found: Option<Loaded>)
      modifies this
      ensures found == Result(old(View()), hash, now)
      ensures View() == Apply(old(View()), Lookup(hash, now))
      ensures found.Some? <==> hash in old(byHash) && now < old(byHash)[hash].until
      ensures found.Some? ==> found == Some(old(byHash)[hash].value) && byHash == old(byHash) && recency != [] && recency[0] == hash
      ensures found.None? ==> byHash == old(byHash) - {hash}
    {
      if hash in byHash && now < byHash[hash].until {
        recency := [hash] + Drop(recency, hash);
        return Some(byHash[hash].value);
      }
      if hash in byHash {
        RemoveEntry(hash);
      }
      return None;
    }

    /** storeEntry, once the generation check has passed. */
    method StoreEntry(hash: string, value: Loaded, until: int)
      requires Coherent(View())
      modifies this
      ensures View() == Apply(old(View()), Store(hash, value, until))
      ensures var full := With(old(byHash), hash, value, until);
              && (|full| <= maxEntries ==> byHash == full)
              && (|full| > maxEntries ==> byHash == full - {Victim(old(View()), hash)} && |byHash| == maxEntries)
    {
      StoreLosesOnlyOverflow(View(), hash, value, until);
      InsertFront(hash, value, until);
      EvictOverflow();
    }

    method InsertFront(hash: string, value: Loaded, until: int)
      requires Coherent(View())
      modifies this
      ensures View() == Inserted(old(View()), hash, value, until)
    {
      DropKeepsOrder(recency, hash);
      InsertAgain(byHash, hash, Entry(value, until));
      if hash in byHash {
        RemoveEntry(hash);
      }
      recency := [hash] + recency;
      byHash := byHash[hash := Entry(value, until)];
    }

    method EvictOverflow()
      modifies this
      ensures View() == Evict(old(View()))
    {
      while |byHash| > maxEntries
        invariant Evict(View()) == Evict(old(View()))
        decreases |recency|
      {
        if recency == [] {
          break;
        }
        var leastRecent := recency[|recency| - 1];
        byHash := byHash - {leastRecent};
        recency := recency[..|recency| - 1];
      }
    }

    method RemoveExpiredEntries(now: int)
      requires Coherent(View())
      modifies this
      ensures View() == Apply(old(View()), RemoveExpired(now))
      ensures forall h :: h in byHash <==> h in old(byHash) && now < old(byHash)[h].until
      ensures forall h :: h in byHash ==> byHash[h] == old(byHash)[h]
    {
      ghost var before := View();
      var todo := byHash.Keys;
      ScanStart(before, now);
      while todo != {}
        invariant todo <= before.byHash.Keys
        invariant View() == Narrow(before, Unscanned(before, todo, now))
        decreases |todo|
      {
        var h :| h in todo;
        ScanStep(before, todo, now, h);
        if now >= byHash[h].until {
          RemoveEntry(h);
        }
        todo := todo - {h};
      }
      ScanEnd(before, now);
    }
  }

  // ---------- splitting the capacity over the shards ----------

  const DEFAULT_MAX_ENTRIES: int := 4096
  const DEFAULT_SHARD_COUNT: int := 32

  /** The two capacity fields after normalizeAPIKeyCacheConfig. */
  function Normalize(maxEntries: int, shardCount: int): (r: (int, int))
    ensures 1 <= r.1 <= r.0
    ensures r.0 == if maxEntries > 0 then maxEntries else 4096
    ensures 0 < shardCount <= r.0 ==> r.1 == shardCount
    ensures shardCount <= 0 && 32 <= r.0 ==> r.1 == 32
    ensures r.0 < (if shardCount > 0 then shardCount else 32) ==> r.1 == r.0
  {
    var entries := if maxEntries <= 0 then DEFAULT_MAX_ENTRIES else maxEntries;
    var shards := if shardCount <= 0 then DEFAULT_SHARD_COUNT else shardCount;
    (entries, if shards > entries then entries else shards)
  }

  function SumFirst(capacities: seq<int>, n: nat): int
    requires n <= |capacities|
  {
    if n == 0 then 0 else SumFirst(capacities, n - 1) + capacities[n - 1]
  }

  lemma {:induction false} SumPrefix(a: seq<int>, c: int, n: nat)
    requires n <= |a|
    ensures SumFirst(a + [c], n) == SumFirst(a, n)
  {
    if n != 0 {
      SumPrefix(a, c, n - 1);
    }
  }

  /** The shards' capacities: each at least one, no two more than one apart, and in all exactly the maximum. */
  method SplitCapacity(maxEntries: int, shardCount: int) returns (capacities: seq<int>)
    requires 1 <= shardCount <= maxEntries
    ensures |capacities| == shardCount
    ensures forall i :: 0 <= i < shardCount ==> 1 <= capacities[i]
    ensures forall i, j :: 0 <= i < j < shardCount ==> capacities[j] <= capacities[i] <= capacities[j] + 1
    ensures SumFirst(capacities, shardCount) == maxEntries
  {
    var base := maxEntries / shardCount;
    var extra := maxEntries % shardCount;
    capacities := [];
    for i := 0 to shardCount
      invariant |capacities| == i
      invariant forall j :: 0 <= j < i ==> capacities[j] == if j < extra then base + 1 else base
      invariant SumFirst(capacities, i) == base * i + if i < extra then i else extra
    {
      var capacity := base;
      if i < extra {
        capacity := capacity + 1;
      }
      SumPrefix(capacities, capacity, i);
      capacities := capacities + [capacity];
      assert base * (i + 1) == base * i + base;
    }
    assert maxEntries == shardCount * base + extra;
    assert base >= 1;
  }
}
