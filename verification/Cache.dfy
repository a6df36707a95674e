/** The two-level result cache (cache.rs): a bounded LRU over a write-through store. */
module Cache {
  import opened Prelude

  datatype Entry = Entry(inputHash: string, result: string, timestamp: nat, timeMs: nat, lastAccess: nat)

  /** What a caller is promised about an input: the result and time of its latest put. */
  datatype Answer = Answer(result: string, timeMs: nat)

  function AnswerOf(e: Entry): Answer {
    Answer(e.result, e.timeMs)
  }

  /** One call on the cache, at a given time. A put says whether the write to the store worked. */
  datatype Op = Put(input: string, result: string, timeMs: nat, now: nat, stored: bool) | Get(input: string, now: nat)
    | Clear

  /** What the two levels hold, by hash. */
  datatype Contents = Contents(memory: map<string, Entry>, disk: map<string, Entry>)

  /** The answer a get would give: memory first. */
  function Lookup(c: Contents, h: string): Option<Answer> {
    if h in c.memory then Some(AnswerOf(c.memory[h])) else Stored(c, h)
  }

  /** What the store holds. */
  function Stored(c: Contents, h: string): Option<Answer> {
    if h in c.disk then Some(AnswerOf(c.disk[h])) else None
  }

  predicate IsOldest(m: map<string, Entry>, key: string) {
    key in m && forall k :: k in m ==> m[key].lastAccess <= m[k].lastAccess
  }

  function Without(m: map<string, Entry>, key: string): map<string, Entry> {
    m - {key}
  }

  /** A full memory first loses some entry with the least access time, also when it holds h already. */
  ghost predicate Inserted(limit: nat, m: map<string, Entry>, h: string, e: Entry, m': map<string, Entry>) {
    if |m| < limit || m == map[] then m' == m[h := e]
    else exists victim :: IsOldest(m, victim) && m' == Without(m, victim)[h := e]
  }

  function PutEntryOf(h: string, op: Op): Entry
    requires op.Put?
  {
    Entry(h, op.result, op.now, op.timeMs, op.now)
  }

  /** One call on the cache; which of several oldest entries goes is left open. */
  ghost predicate Call(limit: nat, hash: string -> string, c: Contents, op: Op, c': Contents) {
    match op
    case Put(input, _, _, _, stored) =>
      var h := hash(input);
      && Inserted(limit, c.memory, h, PutEntryOf(h, op), c'.memory)
      && c'.disk == if stored then c.disk[h := PutEntryOf(h, op)] else c.disk
    case Get(input, now) =>
      var h := hash(input);
      && c'.disk == c.disk
      && (if h in c.memory then c'.memory == c.memory[h := c.memory[h].(lastAccess := now)]
          else if h in c.disk then Inserted(limit, c.memory, h, c.disk[h].(lastAccess := now), c'.memory)
          else c'.memory == c.memory)
    case Clear => c' == Contents(map[], map[])
  }

  /** The memory never holds more than its limit (one entry if the limit is zero). */
  predicate Bounded(limit: nat, m: map<string, Entry>) {
    |m| <= (if limit >= 1 then limit else 1)
  }

  class ResultCache {
    const hash: string -> string
    const maxEntries: nat
    var memory: map<string, Entry>
    var disk: map<string, Entry>

    /** A new cache starts with an empty memory and whatever the directory holds. */
    constructor (hash: string -> string, maxEntries: nat, found: map<string, Entry>)
      ensures this.hash == hash && this.maxEntries == maxEntries && View() == Contents(map[], found)
    {
      this.hash, this.maxEntries, memory, disk := hash, maxEntries, map[], found;
    }

    ghost function View(): Contents
      reads this
    {
      Contents(memory, disk)
    }

    /** Any entry with the least access time. */
    method FindLruEntry() returns (key: Option<string>)
      ensures key.None? <==> memory == map[]
      ensures key.Some? ==> IsOldest(memory, key.value)
    {
      key := None;
      var left := memory.Keys;
      while left != {}
        invariant left <= memory.Keys
        invariant key.None? ==> left == memory.Keys
        invariant key.Some? ==>
                    && key.value in memory
                    && forall k :: k in memory && k !in left ==> memory[key.value].lastAccess <= memory[k].lastAccess
      {
        var k :| k in left;
        if key.None? || memory[k].lastAccess < memory[key.value].lastAccess {
          key := Some(k);
        }
        left := left - {k};
      }
    }

    method InsertWithLruEviction(h: string, entry: Entry)
      requires Bounded(maxEntries, memory)
      modifies this`memory
      ensures Inserted(maxEntries, old(memory), h, entry, memory) && Bounded(maxEntries, memory)
    {
      ghost var before := memory;
      if |memory| >= maxEntries {
        var lru := FindLruEntry();
        if lru.Some? {
          RemoveSize(memory, lru.value);
          memory := Without(memory, lru.value);
          assert IsOldest(before, lru.value);
        }
      }
      InsertSize(memory, h, entry);
      memory := memory[h := entry];
    }

    method GetEntry(input: string, now: nat) returns (r: Option<Entry>)
      requires Bounded(maxEntries, memory)
      modifies this`memory
      ensures Bounded(maxEntries, memory) && Call(maxEntries, hash, old(View()), Get(input, now), View())
      ensures Lookup(View(), hash(input)) == old(Lookup(View(), hash(input)))
           == (if r.Some? then Some(AnswerOf(r.value)) else None)
      ensures r.Some? ==> r.value.lastAccess == now && hash(input) in memory && memory[hash(input)] == r.value
    {
      var h := hash(input);
      if h in memory {
        memory := memory[h := memory[h].(lastAccess := now)];
        return Some(memory[h]);
      }
      if h in disk {
        var entry := disk[h].(lastAccess := now);
        InsertWithLruEviction(h, entry);
        return Some(entry);
      }
      r := None;
    }

    method PutEntry(input: string, result: string, timeMs: nat, now: nat, stored: bool)
      requires Bounded(maxEntries, memory)
      modifies this
      ensures Bounded(maxEntries, memory)
      ensures Call(maxEntries, hash, old(View()), Put(input, result, timeMs, now, stored), View())
      ensures Lookup(View(), hash(input)) == Some(Answer(result, timeMs))
    {
      var h := hash(input);
      var entry := Entry(h, result, now, timeMs, now);
      InsertWithLruEviction(h, entry);
      if stored {
        disk := disk[h := entry];
      }
    }

    method ClearAll()
      modifies this
      ensures View() == Contents(map[], map[])
    {
      memory := map[];
      disk := map[];
    }
  }

  lemma RemoveSize(m: map<string, Entry>, key: string)
    requires key in m
    ensures |Without(m, key)| == |m| - 1
  {
    assert m.Keys == Without(m, key).Keys + {key};
    assert |m| == |m.Keys| && |Without(m, key)| == |Without(m, key).Keys|;
  }

  lemma InsertSize(m: map<string, Entry>, key: string, entry: Entry)
    ensures |m[key := entry]| <= |m| + 1
  {
    assert m[key := entry].Keys == m.Keys + {key};
    assert |m| == |m.Keys| && |m[key := entry]| == |m[key := entry].Keys|;
  }

  // ================================================================ whole histories

  /** The plain map the cache stands for: the latest put per input since the last clear, or what the
      store held at the start. */
  function Latest(found: Option<Answer>, ops: seq<Op>, input: string): Option<Answer> {
    if ops == [] then found
    else
      match ops[|ops| - 1]
      case Put(i, result, timeMs, _, _) =>
        if i == input then Some(Answer(result, timeMs)) else Latest(found, ops[..|ops| - 1], input)
      case Get(_, _) => Latest(found, ops[..|ops| - 1], input)
      case Clear => None
  }

  /** The same, counting only the puts that reached the store. */
  function Written(found: Option<Answer>, ops: seq<Op>, input: string): Option<Answer> {
    if ops == [] then found
    else
      match ops[|ops| - 1]
      case Put(i, result, timeMs, _, stored) =>
        if i == input && stored then Some(Answer(result, timeMs)) else Written(found, ops[..|ops| - 1], input)
      case Get(_, _) => Written(found, ops[..|ops| - 1], input)
      case Clear => None
  }

  predicate AllStored(ops: seq<Op>) {
    forall i :: 0 <= i < |ops| && ops[i].Put? ==> ops[i].stored
  }

  ghost predicate CollisionFree(hash: string -> string) {
    forall a, b :: hash(a) == hash(b) ==> a == b
  }

  /** The contents before, between and after the calls. */
  ghost predicate IsHistory(limit: nat, hash: string -> string, states: seq<Contents>, ops: seq<Op>) {
    && |states| == |ops| + 1 && Bounded(limit, states[0].memory)
    && forall i :: 0 <= i < |ops| ==> CallAt(limit, hash, states, ops, i)
  }

  ghost predicate CallAt(limit: nat, hash: string -> string, states: seq<Contents>, ops: seq<Op>, i: nat)
    requires i < |ops| && |states| == |ops| + 1
  {
    Call(limit, hash, states[i], ops[i], states[i + 1])
  }

  /** The input's latest put has been in memory ever since. */
  predicate Resident(hash: string -> string, states: seq<Contents>, ops: seq<Op>, n: nat, input: string)
    requires n <= |ops| && |states| == |ops| + 1
  {
    n > 0 &&
    match ops[n - 1]
    case Put(i, _, _, _, _) =>
      i == input || (Resident(hash, states, ops, n - 1, input) && hash(input) in states[n].memory)
    case Get(_, _) => Resident(hash, states, ops, n - 1, input) && hash(input) in states[n].memory
    case Clear => false
  }

  lemma InsertedEntry(limit: nat, m: map<string, Entry>, h: string, e: Entry, m': map<string, Entry>, other: string)
    requires Inserted(limit, m, h, e, m')
    ensures h in m' && m'[h] == e
    ensures other != h && other in m' ==> other in m && m'[other] == m[other]
  {
  }

  /** Store and memory after n calls. */
  ghost predicate Known(hash: string -> string, states: seq<Contents>, ops: seq<Op>, n: nat, input: string)
    requires n <= |ops| && |states| == |ops| + 1
  {
    var h, c := hash(input), states[n];
    var found := Stored(states[0], h);
    var resident := Resident(hash, states, ops, n, input);
    && Stored(c, h) == Written(found, ops[..n], input)
    && (resident ==> h in c.memory)
    && (h in c.memory ==>
          Some(AnswerOf(c.memory[h]))
            == if resident then Latest(found, ops[..n], input) else Written(found, ops[..n], input))
  }

  lemma KnownStep(limit: nat, hash: string -> string, states: seq<Contents>, ops: seq<Op>, n: nat, input: string)
    requires n < |ops| && IsHistory(limit, hash, states, ops) && CollisionFree(hash)
    requires Known(hash, states, ops, n, input)
    ensures Known(hash, states, ops, n + 1, input)
  {
    var c, c', h := states[n], states[n + 1], hash(input);
    assert CallAt(limit, hash, states, ops, n);
    assert ops[..n + 1][..n] == ops[..n];
    match ops[n]
    case Put(i, _, _, _, _) =>
      InsertedEntry(limit, c.memory, hash(i), PutEntryOf(hash(i), ops[n]), c'.memory, h);
    case Get(i, now) =>
      if hash(i) !in c.memory && hash(i) in c.disk {
        InsertedEntry(limit, c.memory, hash(i), c.disk[hash(i)].(lastAccess := now), c'.memory, h);
      }
    case Clear =>
  }

  lemma {:induction false} KnownAlways(limit: nat, hash: string -> string, states: seq<Contents>, ops: seq<Op>,
                                       n: nat, input: string)
    requires n <= |ops| && IsHistory(limit, hash, states, ops) && CollisionFree(hash) && states[0].memory == map[]
    ensures Known(hash, states, ops, n, input)
  {
    if n > 0 {
      KnownAlways(limit, hash, states, ops, n - 1, input);
      KnownStep(limit, hash, states, ops, n - 1, input);
    }
  }

  /** After any history, refused writes and evictions included: a get answers the latest put while
      that has stayed in memory, and otherwise the latest put that reached the store. */
  lemma GetAnswers(limit: nat, hash: string -> string, states: seq<Contents>, ops: seq<Op>, n: nat, input: string)
    requires n <= |ops| && IsHistory(limit, hash, states, ops) && CollisionFree(hash) && states[0].memory == map[]
    ensures var found := Stored(states[0], hash(input));
            Lookup(states[n], hash(input))
            == (if Resident(hash, states, ops, n, input) then Latest(found, ops[..n], input)
                else Written(found, ops[..n], input))
  {
    KnownAlways(limit, hash, states, ops, n, input);
  }

  lemma {:induction false} StoredWrites(found: Option<Answer>, ops: seq<Op>, input: string)
    requires AllStored(ops)
    ensures Written(found, ops, input) == Latest(found, ops, input)
  {
    if ops != [] {
      StoredWrites(found, ops[..|ops| - 1], input);
    }
  }

  /** The input's latest put since the last clear reached the store, if there was one. */
  predicate LatestStored(ops: seq<Op>, input: string) {
    ops == [] ||
    match ops[|ops| - 1]
    case Put(i, _, _, _, stored) => if i == input then stored else LatestStored(ops[..|ops| - 1], input)
    case Get(_, _) => LatestStored(ops[..|ops| - 1], input)
    case Clear => true
  }

  /** A refused put leaves the store as the put before it did: it does harm exactly when the answers differ. */
  lemma {:induction false} RefusedPut(found: Option<Answer>, ops: seq<Op>, input: string)
    ensures LatestStored(ops, input) ==> Latest(found, ops, input) == Written(found, ops, input)
    ensures !LatestStored(ops, input) ==>
              exists n: nat :: n < |ops| && ops[n].Put? && ops[n].input == input && !ops[n].stored
                && Latest(found, ops, input) == Some(Answer(ops[n].result, ops[n].timeMs))
                && Written(found, ops, input) == Written(found, ops[..n], input)
  {
    if ops != [] {
      var init, n := ops[..|ops| - 1], |ops| - 1;
      RefusedPut(found, init, input);
      if !LatestStored(ops, input) {
        if ops[n].Put? && ops[n].input == input {
          assert ops[..n] == init;
        } else {
          var m: nat :| m < |init| && init[m].Put? && init[m].input == input && !init[m].stored
            && Latest(found, init, input) == Some(Answer(init[m].result, init[m].timeMs))
            && Written(found, init, input) == Written(found, init[..m], input);
          assert ops[m] == init[m] && ops[..m] == init[..m];
        }
      }
    }
  }

  // ================================================================ from here on

  /** Whatever calls follow, as long as their writes succeed, a get of this input answers the latest put. */
  ghost predicate RightFromHereOn(limit: nat, hash: string -> string, found: Option<Answer>, ops: seq<Op>,
                                  c: Contents, input: string) {
    forall more, after {:trigger IsHistory(limit, hash, after, more)} ::
      IsHistory(limit, hash, after, more) && AllStored(more) && after[0] == c ==>
        Lookup(after[|more|], hash(input)) == Latest(found, ops + more, input)
  }

  lemma InsertedBounded(limit: nat, m: map<string, Entry>, h: string, e: Entry, m': map<string, Entry>)
    requires Inserted(limit, m, h, e, m') && Bounded(limit, m)
    ensures Bounded(limit, m')
  {
    if |m| < limit || m == map[] {
      InsertSize(m, h, e);
    } else {
      var victim :| IsOldest(m, victim) && m' == Without(m, victim)[h := e];
      RemoveSize(m, victim);
      InsertSize(Without(m, victim), h, e);
    }
  }

  lemma TouchedBounded(limit: nat, m: map<string, Entry>, h: string, e: Entry)
    requires Bounded(limit, m) && h in m
    ensures Bounded(limit, m[h := e])
  {
    assert m[h := e].Keys == m.Keys;
    assert |m| == |m.Keys| && |m[h := e]| == |m[h := e].Keys|;
  }

  lemma CallBounded(limit: nat, hash: string -> string, c: Contents, op: Op, c': Contents)
    requires Call(limit, hash, c, op, c') && Bounded(limit, c.memory)
    ensures Bounded(limit, c'.memory)
  {
    match op
    case Put(i, _, _, _, _) => InsertedBounded(limit, c.memory, hash(i), PutEntryOf(hash(i), op), c'.memory);
    case Get(i, now) =>
      if hash(i) in c.memory {
        TouchedBounded(limit, c.memory, hash(i), c.memory[hash(i)].(lastAccess := now));
      } else if hash(i) in c.disk {
        InsertedBounded(limit, c.memory, hash(i), c.disk[hash(i)].(lastAccess := now), c'.memory);
      }
    case Clear =>
  }

  /** The memory stays within its limit. */
  lemma {:induction false} AlwaysBounded(limit: nat, hash: string -> string, states: seq<Contents>, ops: seq<Op>,
                                         n: nat)
    requires n <= |ops| && IsHistory(limit, hash, states, ops)
    ensures Bounded(limit, states[n].memory)
  {
    if n > 0 {
      AlwaysBounded(limit, hash, states, ops, n - 1);
      assert CallAt(limit, hash, states, ops, n - 1);
      CallBounded(limit, hash, states[n - 1], ops[n - 1], states[n]);
    }
  }

  // ---------------------------------------------------------------- the good case

  lemma {:induction false} AppendAgrees(found: Option<Answer>, ops: seq<Op>, more: seq<Op>, input: string)
    requires AllStored(more) && Latest(found, ops, input) == Written(found, ops, input)
    ensures Latest(found, ops + more, input) == Written(found, ops + more, input)
  {
    if more == [] {
      assert ops + more == ops;
    } else {
      assert (ops + more)[..|ops + more| - 1] == ops + more[..|more| - 1];
      AppendAgrees(found, ops, more[..|more| - 1], input);
    }
  }

  lemma HistoryAppend(limit: nat, hash: string -> string, states: seq<Contents>, ops: seq<Op>,
                      after: seq<Contents>, more: seq<Op>)
    requires IsHistory(limit, hash, states, ops) && IsHistory(limit, hash, after, more) && after[0] == states[|ops|]
    ensures IsHistory(limit, hash, states + after[1..], ops + more)
  {
    var all, calls := states + after[1..], ops + more;
    forall i | 0 <= i < |calls|
      ensures CallAt(limit, hash, all, calls, i)
    {
      if i < |ops| {
        assert CallAt(limit, hash, states, ops, i);
      } else {
        assert CallAt(limit, hash, after, more, i - |ops|);
        assert all[i] == after[i - |ops|] && all[i + 1] == after[i + 1 - |ops|];
      }
    }
  }

  lemma StoredForGood(limit: nat, hash: string -> string, states: seq<Contents>, ops: seq<Op>, input: string,
                      after: seq<Contents>, more: seq<Op>)
    requires IsHistory(limit, hash, states, ops) && CollisionFree(hash) && states[0].memory == map[]
    requires var found := Stored(states[0], hash(input)); Latest(found, ops, input) == Written(found, ops, input)
    requires IsHistory(limit, hash, after, more) && AllStored(more) && after[0] == states[|ops|]
    ensures Lookup(after[|more|], hash(input)) == Latest(Stored(states[0], hash(input)), ops + more, input)
  {
    HistoryAppend(limit, hash, states, ops, after, more);
    var all, calls := states + after[1..], ops + more;
    GetAnswers(limit, hash, all, calls, |calls|, input);
    AppendAgrees(Stored(states[0], hash(input)), ops, more, input);
    assert calls[..|calls|] == calls && all[|calls|] == after[|more|];
  }

  // ---------------------------------------------------------------- eviction

  lemma {:induction false} OldestExists(m: map<string, Entry>) returns (key: string)
    requires m != map[]
    ensures IsOldest(m, key)
    decreases |m|
  {
    var k :| k in m;
    var rest := Without(m, k);
    RemoveSize(m, k);
    if rest == map[] {
      key := k;
      assert forall j :: j in m ==> j == k || j in rest;
    } else {
      var r := OldestExists(rest);
      key := if m[k].lastAccess < m[r].lastAccess then k else r;
      assert forall j :: j in m ==> j == k || j in rest;
    }
  }

  lemma InsertExists(limit: nat, m: map<string, Entry>, h: string, e: Entry) returns (m': map<string, Entry>)
    ensures Inserted(limit, m, h, e, m')
  {
    if |m| < limit || m == map[] {
      m' := m[h := e];
    } else {
      var victim := OldestExists(m);
      m' := Without(m, victim)[h := e];
    }
  }

  function Xs(n: nat): string { seq(n, i => 'x') }

  /** Inputs of other problems. */
  function Other(input: string, i: nat): (s: string)
    ensures |s| == |input| + i + 1
  {
    input + Xs(i + 1)
  }

  function OtherPut(input: string, i: nat, now: nat): Op { Put(Other(input, i), "", 0, now, true) }

  /** Either the input is out of memory, or the first j others are in it, used more recently. */
  ghost predicate Crowded(hash: string -> string, m: map<string, Entry>, input: string, now: nat, j: nat) {
    hash(input) in m ==>
      && m[hash(input)].lastAccess < now
      && forall i: nat :: i < j ==> hash(Other(input, i)) in m && m[hash(Other(input, i))].lastAccess == now
  }

  lemma CrowdedStep(limit: nat, hash: string -> string, m: map<string, Entry>, m': map<string, Entry>,
                    input: string, now: nat, j: nat)
    requires CollisionFree(hash) && Crowded(hash, m, input, now, j)
    requires var h := hash(Other(input, j)); Inserted(limit, m, h, PutEntryOf(h, OtherPut(input, j, now)), m')
    ensures Crowded(hash, m', input, now, j + 1)
  {
    var h, e := hash(Other(input, j)), PutEntryOf(hash(Other(input, j)), OtherPut(input, j, now));
    InsertedEntry(limit, m, h, e, m', hash(input));
    if hash(input) in m' {
      assert Other(input, j) != input;
      forall i: nat | i < j + 1
        ensures hash(Other(input, i)) in m' && m'[hash(Other(input, i))].lastAccess == now
      {
        if i < j && !(|m| < limit || m == map[]) {
          var victim :| IsOldest(m, victim) && m' == Without(m, victim)[h := e];
          assert m[victim].lastAccess < now;
        }
      }
    }
  }

  /** Fresh puts, one after the other. */
  lemma {:induction false} Crowd(limit: nat, hash: string -> string, c: Contents, input: string, now: nat, j: nat)
    returns (after: seq<Contents>, more: seq<Op>)
    requires CollisionFree(hash) && Bounded(limit, c.memory) && Crowded(hash, c.memory, input, now, 0)
    ensures IsHistory(limit, hash, after, more) && AllStored(more) && after[0] == c && |more| == j
    ensures forall i :: 0 <= i < |more| ==> more[i].Put? && more[i].input != input
    ensures Crowded(hash, after[j].memory, input, now, j) && Stored(after[j], hash(input)) == Stored(c, hash(input))
  {
    if j == 0 {
      after, more := [c], [];
    } else {
      var after0, more0 := Crowd(limit, hash, c, input, now, j - 1);
      var op, last := OtherPut(input, j - 1, now), after0[j - 1];
      var h := hash(op.input);
      var memory := InsertExists(limit, last.memory, h, PutEntryOf(h, op));
      var next := Contents(memory, last.disk[h := PutEntryOf(h, op)]);
      after, more := after0 + [next], more0 + [op];
      assert (more0 + [op])[..j - 1] == more0 && more[..j] == more;
      HistoryMore(limit, hash, after0, more, j - 1, next);
      assert Other(input, j - 1) != input;
      CrowdedStep(limit, hash, last.memory, memory, input, now, j - 1);
    }
  }

  lemma {:induction false} OthersCount(hash: string -> string, input: string, j: nat) returns (others: set<string>)
    requires CollisionFree(hash)
    ensures |others| == j && forall h :: h in others <==> exists i: nat :: i < j && h == hash(Other(input, i))
  {
    if j == 0 {
      others := {};
    } else {
      var fewer := OthersCount(hash, input, j - 1);
      var h := hash(Other(input, j - 1));
      forall i: nat | i < j - 1
        ensures hash(Other(input, i)) != h
      {
        assert |Other(input, i)| != |Other(input, j - 1)|;
      }
      assert h !in fewer;
      others := fewer + {h};
    }
  }

  /** After as many puts of others as the memory holds, the input is out. */
  lemma CrowdedOut(limit: nat, hash: string -> string, m: map<string, Entry>, input: string, now: nat)
    requires CollisionFree(hash) && Bounded(limit, m)
    requires Crowded(hash, m, input, now, if limit >= 1 then limit else 1)
    ensures hash(input) !in m
  {
    var j := if limit >= 1 then limit else 1;
    var others := OthersCount(hash, input, j);
    forall i: nat | i < j
      ensures hash(Other(input, i)) != hash(input)
    {
      assert |Other(input, i)| != |input|;
    }
    assert |others + {hash(input)}| == j + 1 && |m| == |m.Keys|;
    if hash(input) in m {
      SubsetSize(others + {hash(input)}, m.Keys);
    }
  }

  lemma Evict(limit: nat, hash: string -> string, c: Contents, input: string)
    returns (after: seq<Contents>, more: seq<Op>)
    requires CollisionFree(hash) && Bounded(limit, c.memory)
    ensures IsHistory(limit, hash, after, more) && AllStored(more) && after[0] == c
    ensures forall i :: 0 <= i < |more| ==> more[i].Put? && more[i].input != input
    ensures Lookup(after[|more|], hash(input)) == Stored(c, hash(input))
  {
    var now := if hash(input) in c.memory then c.memory[hash(input)].lastAccess + 1 else 0;
    after, more := Crowd(limit, hash, c, input, now, if limit >= 1 then limit else 1);
    AlwaysBounded(limit, hash, after, more, |more|);
    CrowdedOut(limit, hash, after[|more|].memory, input, now);
  }

  lemma {:induction false} OthersIrrelevant(found: Option<Answer>, ops: seq<Op>, more: seq<Op>, input: string)
    requires forall i :: 0 <= i < |more| ==> more[i].Put? && more[i].input != input
    ensures Latest(found, ops + more, input) == Latest(found, ops, input)
  {
    if more == [] {
      assert ops + more == ops;
    } else {
      assert (ops + more)[..|ops + more| - 1] == ops + more[..|more| - 1];
      OthersIrrelevant(found, ops, more[..|more| - 1], input);
    }
  }

  /** After a history with any writes refused, every later get of an input answers its latest put,
      whatever stored calls come in between, if and only if that put's answer is what the store was
      last given for the input. */
  lemma RightFromHereOnIff(limit: nat, hash: string -> string, states: seq<Contents>, ops: seq<Op>, input: string)
    requires IsHistory(limit, hash, states, ops) && CollisionFree(hash) && states[0].memory == map[]
    ensures var found := Stored(states[0], hash(input));
            RightFromHereOn(limit, hash, found, ops, states[|ops|], input)
            <==> Latest(found, ops, input) == Written(found, ops, input)
  {
    var found, c := Stored(states[0], hash(input)), states[|ops|];
    if Latest(found, ops, input) == Written(found, ops, input) {
      forall more, after | IsHistory(limit, hash, after, more) && AllStored(more) && after[0] == c
        ensures Lookup(after[|more|], hash(input)) == Latest(found, ops + more, input)
      {
        StoredForGood(limit, hash, states, ops, input, after, more);
      }
    } else {
      AlwaysBounded(limit, hash, states, ops, |ops|);
      var after, more := Evict(limit, hash, c, input);
      KnownAlways(limit, hash, states, ops, |ops|, input);
      assert ops[..|ops|] == ops;
      OthersIrrelevant(found, ops, more, input);
      assert Lookup(after[|more|], hash(input)) != Latest(found, ops + more, input);
    }
  }

  // ================================================================ the class

  /** One call; a get answers what the contents say. */
  method Perform(cache: ResultCache, op: Op) returns (answer: Option<Answer>)
    requires Bounded(cache.maxEntries, cache.memory)
    modifies cache
    ensures Bounded(cache.maxEntries, cache.memory)
    ensures Call(cache.maxEntries, cache.hash, old(cache.View()), op, cache.View())
    ensures op.Get? ==> answer == old(Lookup(cache.View(), cache.hash(op.input)))
  {
    answer := None;
    match op {
      case Put(input, result, timeMs, now, stored) => cache.PutEntry(input, result, timeMs, now, stored);
      case Get(input, now) =>
        var r := cache.GetEntry(input, now);
        answer := if r.Some? then Some(AnswerOf(r.value)) else None;
      case Clear => cache.ClearAll();
    }
  }

  /** Any calls on a cache just started over any store: while no write is refused, every get answers
      like the plain map, whatever is evicted on the way; in general each get answers its input's
      latest put while that is in memory and else the latest put that reached the store. */
  method Replay(cache: ResultCache, ops: seq<Op>) returns (answers: seq<Option<Answer>>, ghost states: seq<Contents>)
    requires cache.memory == map[] && CollisionFree(cache.hash)
    modifies cache
    ensures IsHistory(cache.maxEntries, cache.hash, states, ops)
    ensures states[0] == old(cache.View()) && states[|ops|] == cache.View() && |answers| == |ops|
    ensures forall i :: 0 <= i < |ops| && ops[i].Get? ==> AnswersAt(cache.hash, states, ops, i, answers[i])
  {
    answers, states := [], [cache.View()];
    for n := 0 to |ops|
      invariant Bounded(cache.maxEntries, cache.memory)
      invariant |answers| == n && IsHistory(cache.maxEntries, cache.hash, states, ops[..n])
      invariant states[0] == old(cache.View()) && states[n] == cache.View()
      invariant forall i :: 0 <= i < n && ops[i].Get? ==> answers[i] == Lookup(states[i], cache.hash(ops[i].input))
    {
      ghost var before := states;
      var answer := Perform(cache, ops[n]);
      answers, states := answers + [answer], states + [cache.View()];
      HistoryMore(cache.maxEntries, cache.hash, before, ops, n, cache.View());
    }
    assert ops[..|ops|] == ops;
    forall i | 0 <= i < |ops| && ops[i].Get?
      ensures AnswersAt(cache.hash, states, ops, i, answers[i])
    {
      var input := ops[i].input;
      GetAnswers(cache.maxEntries, cache.hash, states, ops, i, input);
      if AllStored(ops[..i]) { StoredWrites(Stored(states[0], cache.hash(input)), ops[..i], input); }
    }
  }

  /** The answer to get number i: the latest put while it is in memory, and otherwise the latest that
      reached the store; in any case the latest put if no write before was refused. */
  ghost predicate AnswersAt(hash: string -> string, states: seq<Contents>, ops: seq<Op>, i: nat, answer: Option<Answer>)
    requires i < |ops| && |states| == |ops| + 1 && ops[i].Get?
  {
    var input := ops[i].input;
    var found := Stored(states[0], hash(input));
    && answer == (if Resident(hash, states, ops, i, input) then Latest(found, ops[..i], input)
                  else Written(found, ops[..i], input))
    && (AllStored(ops[..i]) ==> answer == Latest(found, ops[..i], input))
  }

  lemma HistoryMore(limit: nat, hash: string -> string, states: seq<Contents>, ops: seq<Op>, n: nat, c: Contents)
    requires n < |ops| && |states| == n + 1 && IsHistory(limit, hash, states, ops[..n])
    requires Call(limit, hash, states[n], ops[n], c)
    ensures IsHistory(limit, hash, states + [c], ops[..n + 1])
  {
    var all, calls := states + [c], ops[..n + 1];
    forall i | 0 <= i < |calls|
      ensures CallAt(limit, hash, all, calls, i)
    {
      if i < n { assert CallAt(limit, hash, states, ops[..n], i); }
    }
  }

  lemma SingletonMap(m: map<string, Entry>, a: string, b: string)
    requires |m| <= 1 && a in m && a != b
    ensures b !in m
  {
    if b in m {
      var rest := Without(Without(m, a), b);
      RemoveSize(m, a);
      RemoveSize(Without(m, a), b);
    }
  }

  /** When the store refuses the second put of an input and the entry is then evicted, a get brings the
      first answer back. */
  method StaleAfterFailedWrite(hash: string -> string) returns (answer: Option<Entry>)
    requires CollisionFree(hash)
    ensures answer.Some? && AnswerOf(answer.value) == Answer("sat", 1)
  {
    var cache := new ResultCache(hash, 1, map[]);
    assert "a" != "b";
    cache.PutEntry("a", "sat", 1, 0, true);
    cache.PutEntry("a", "unsat", 2, 1, false);
    cache.PutEntry("b", "sat", 3, 2, true);
    assert hash("b") in cache.memory;
    SingletonMap(cache.memory, hash("b"), hash("a"));
    answer := cache.GetEntry("a", 3);
  }
}
