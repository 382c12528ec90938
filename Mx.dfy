/** MX selection (`resolveMX`) and exchange failover (`tryConnect`). The DNS
    resolver and the outcome of a TCP connection attempt are parameters. */
module Mx {
  import opened Wrappers

  datatype MXRecord = MXRecord(exchange: string, priority: int)

  ghost predicate SortedByPriority(s: seq<MXRecord>)
  {
    forall i, j :: 0 <= i < j < |s| ==> s[i].priority <= s[j].priority
  }

  /** The records of `s` whose priority is `p`, in their order in `s`. */
  function WithPriority(s: seq<MXRecord>, p: int): seq<MXRecord>
  {
    if s == [] then []
    else WithPriority(s[..|s| - 1], p) + (if s[|s| - 1].priority == p then [s[|s| - 1]] else [])
  }

  /** `t` holds the records of `s`, and records of equal priority keep the order
      they have in `s`: what a stable sort by priority preserves. */
  ghost predicate SameTies(t: seq<MXRecord>, s: seq<MXRecord>)
  {
    forall p :: WithPriority(t, p) == WithPriority(s, p)
  }

  lemma {:induction false} WithPriorityAppend(a: seq<MXRecord>, b: seq<MXRecord>, p: int)
    ensures WithPriority(a + b, p) == WithPriority(a, p) + WithPriority(b, p)
    decreases |b|
  {
    if b == [] {
      assert a + b == a;
    } else {
      assert (a + b)[..|a + b| - 1] == a + b[..|b| - 1];
      WithPriorityAppend(a, b[..|b| - 1], p);
    }
  }

  /** Exchanging two neighbours of different priority keeps the ties. */
  lemma SwapKeepsTies(s: seq<MXRecord>, j: int)
    requires 0 < j < |s| && s[j - 1].priority != s[j].priority
    ensures SameTies(s[j - 1 := s[j]][j := s[j - 1]], s)
  {
    var t := s[j - 1 := s[j]][j := s[j - 1]];
    assert s == s[..j - 1] + [s[j - 1], s[j]] + s[j + 1..];
    assert t == s[..j - 1] + [s[j], s[j - 1]] + s[j + 1..];
    forall p ensures WithPriority(t, p) == WithPriority(s, p) {
      WithPriorityAppend(s[..j - 1] + [s[j - 1], s[j]], s[j + 1..], p);
      WithPriorityAppend(s[..j - 1], [s[j - 1], s[j]], p);
      WithPriorityAppend(s[..j - 1] + [s[j], s[j - 1]], s[j + 1..], p);
      WithPriorityAppend(s[..j - 1], [s[j], s[j - 1]], p);
      assert [s[j - 1], s[j]][..1] == [s[j - 1]];
      assert [s[j], s[j - 1]][..1] == [s[j]];
    }
  }

  /** Reference definition of the stable sort: insertion sort on values, each
      record placed after every earlier record of lower or equal priority. */
  function PrioritySorted(s: seq<MXRecord>): seq<MXRecord>
  {
    if s == [] then [] else Insert(PrioritySorted(s[..|s| - 1]), s[|s| - 1])
  }

  function Insert(t: seq<MXRecord>, x: MXRecord): seq<MXRecord>
  {
    if t == [] || t[|t| - 1].priority <= x.priority then t + [x]
    else Insert(t[..|t| - 1], x) + [t[|t| - 1]]
  }

  lemma {:induction false} InsertSorted(t: seq<MXRecord>, x: MXRecord)
    requires SortedByPriority(t)
    ensures SortedByPriority(Insert(t, x))
    ensures |Insert(t, x)| == |t| + 1
    ensures Insert(t, x)[|t|].priority == if t == [] then x.priority else Max(t[|t| - 1].priority, x.priority)
  {
    if t != [] && t[|t| - 1].priority > x.priority {
      InsertSorted(t[..|t| - 1], x);
    }
  }

  function Max(a: int, b: int): int
  {
    if a < b then b else a
  }

  lemma InsertTies(t: seq<MXRecord>, x: MXRecord, p: int)
    ensures WithPriority(Insert(t, x), p) == WithPriority(t, p) + (if x.priority == p then [x] else [])
    decreases |t|
  {
    if t != [] && t[|t| - 1].priority > x.priority {
      var init, last := t[..|t| - 1], t[|t| - 1];
      InsertTies(init, x, p);
      assert Insert(t, x)[..|Insert(t, x)| - 1] == Insert(init, x);
    }
  }

  /** The reference sort is sorted and keeps the ties: it is a stable sort. */
  lemma {:induction false} PrioritySortedIsStableSort(s: seq<MXRecord>)
    ensures SortedByPriority(PrioritySorted(s)) && SameTies(PrioritySorted(s), s)
    ensures |PrioritySorted(s)| == |s|
  {
    if s != [] {
      var init := s[..|s| - 1];
      PrioritySortedIsStableSort(init);
      InsertSorted(PrioritySorted(init), s[|s| - 1]);
      forall p ensures WithPriority(PrioritySorted(s), p) == WithPriority(s, p) {
        InsertTies(PrioritySorted(init), s[|s| - 1], p);
      }
    }
  }

  /** `resolvedMX.sort((a, b) => a.priority - b.priority)`: an in-place stable sort,
      ascending by priority. */
  method SortByPriority(a: array<MXRecord>)
    modifies a
    ensures SortedByPriority(a[..])
    ensures SameTies(a[..], old(a[..]))
  {
    var i := 0;
    while i < a.Length
      invariant 0 <= i <= a.Length
      invariant forall k, m :: 0 <= k < m < i ==> a[k].priority <= a[m].priority
      invariant SameTies(a[..], old(a[..]))
    {
      SinkInto(a, i);
      i := i + 1;
    }
  }

  /** One pass of the insertion sort: moves `a[i]` down past every record of
      higher priority, so the prefix `a[..i + 1]` is sorted. */
  method SinkInto(a: array<MXRecord>, i: int)
    modifies a
    requires 0 <= i < a.Length
    requires forall k, m :: 0 <= k < m < i ==> a[k].priority <= a[m].priority
    ensures forall k, m :: 0 <= k < m <= i ==> a[k].priority <= a[m].priority
    ensures SameTies(a[..], old(a[..]))
  {
    var j := i;
    while j > 0 && a[j - 1].priority > a[j].priority
      invariant 0 <= j <= i
      invariant forall k, m :: 0 <= k < m <= i && k != j && m != j ==> a[k].priority <= a[m].priority
      invariant forall m :: j < m <= i ==> a[j].priority <= a[m].priority
      invariant SameTies(a[..], old(a[..]))
    {
      SwapKeepsTies(a[..], j);
      a[j - 1], a[j] := a[j], a[j - 1];
      j := j - 1;
    }
  }

  /** The records that `lookup` gives for `domain`, or the single override record.
      `smtpHost` stands for the engine's optional relay host. */
  method ResolveMX(smtpHost: Option<string>, domain: string, lookup: string -> Result<seq<MXRecord>, string>)
    returns (r: Result<seq<MXRecord>, string>)
    ensures smtpHost.Some? && smtpHost.value != "" ==> r == Success([MXRecord(smtpHost.value, 1)])
    ensures !(smtpHost.Some? && smtpHost.value != "") ==>
      match lookup(domain)
      case Failure(e) => r == Failure("Failed to resolve MX for " + domain + ": " + e)
      case Success(records) => r.Success? && SortedByPriority(r.value) && SameTies(r.value, records)
    // The same list, by a definition independent of the in-place sort.
    ensures r == Candidates(smtpHost, domain, lookup)
  {
    if smtpHost.Some? && smtpHost.value != "" {
      return Success([MXRecord(smtpHost.value, 1)]);
    }
    match lookup(domain)
    case Failure(e) =>
      r := Failure("Failed to resolve MX for " + domain + ": " + e);
    case Success(records) =>
      var a := new MXRecord[|records|](k requires 0 <= k < |records| => records[k]);
      assert a[..] == records;
      SortByPriority(a);
      r := Success(a[..]);
      PrioritySortedIsStableSort(records);
      assert SameTies(a[..], PrioritySorted(records)) by {
        forall p ensures WithPriority(a[..], p) == WithPriority(PrioritySorted(records), p) {
        }
      }
      StableSortUnique(a[..], PrioritySorted(records));
  }

  /** What `resolveMX` resolves to, as a function. */
  function Candidates(smtpHost: Option<string>, domain: string, lookup: string -> Result<seq<MXRecord>, string>)
    : Result<seq<MXRecord>, string>
  {
    if smtpHost.Some? && smtpHost.value != "" then Success([MXRecord(smtpHost.value, 1)])
    else
      match lookup(domain)
      case Failure(e) => Failure("Failed to resolve MX for " + domain + ": " + e)
      case Success(records) => Success(PrioritySorted(records))
  }

  /** A stable sort keeps every record: the result is a permutation of the input. */
  lemma SameTiesIsPermutation(t: seq<MXRecord>, s: seq<MXRecord>)
    requires SameTies(t, s)
    ensures multiset(t) == multiset(s)
  {
    forall x ensures multiset(t)[x] == multiset(s)[x] {
      CountInTies(t, x);
      CountInTies(s, x);
      assert WithPriority(t, x.priority) == WithPriority(s, x.priority);
    }
  }

  lemma {:induction false} CountInTies(s: seq<MXRecord>, x: MXRecord)
    ensures multiset(s)[x] == multiset(WithPriority(s, x.priority))[x]
  {
    if s != [] {
      CountInTies(s[..|s| - 1], x);
      assert s == s[..|s| - 1] + [s[|s| - 1]];
    }
  }

  /** The record list a stable sort produces is unique: a sorted list with the same
      ties as `s` is fully determined by `s`. */
  lemma {:induction false} StableSortUnique(t: seq<MXRecord>, u: seq<MXRecord>)
    requires SortedByPriority(t) && SortedByPriority(u) && SameTies(t, u)
    ensures t == u
    decreases |t|
  {
    SameTiesIsPermutation(t, u);
    assert |t| == |multiset(t)| == |multiset(u)| == |u|;
    if |t| > 0 {
      var n := |t| - 1;
      LastHasTopPriority(t, u);
      LastHasTopPriority(u, t);
      var tl, ul := t[n], u[n];
      var w := WithPriority(t, tl.priority);
      assert w == WithPriority(t[..n], tl.priority) + [tl];
      assert w == WithPriority(u, tl.priority) == WithPriority(u[..n], tl.priority) + [ul];
      assert w[|w| - 1] == tl && w[|w| - 1] == ul;
      forall q ensures WithPriority(t[..n], q) == WithPriority(u[..n], q) {
        var extra := if tl.priority == q then [tl] else [];
        var x, y := WithPriority(t[..n], q), WithPriority(u[..n], q);
        assert WithPriority(t, q) == x + extra;
        assert WithPriority(u, q) == y + extra;
        assert x + extra == y + extra;
        assert |x| == |y|;
        assert (x + extra)[..|x|] == x && (y + extra)[..|y|] == y;
      }
      StableSortUnique(t[..n], u[..n]);
    }
  }

  lemma LastHasTopPriority(t: seq<MXRecord>, u: seq<MXRecord>)
    requires |t| > 0 && |u| == |t| && SortedByPriority(u) && multiset(t) == multiset(u)
    ensures t[|t| - 1].priority <= u[|u| - 1].priority
  {
    var x := t[|t| - 1];
    assert x in multiset(t);
    assert x in u;
    var k :| 0 <= k < |u| && u[k] == x;
  }

  /** The exchange hosts of `records`, in order. */
  function Exchanges(records: seq<MXRecord>): (hosts: seq<string>)
    ensures |hosts| == |records|
    ensures forall k :: 0 <= k < |records| ==> hosts[k] == records[k].exchange
  {
    if records == [] then [] else Exchanges(records[..|records| - 1]) + [records[|records| - 1].exchange]
  }

  /** The index of the first candidate at or after `i` that accepts a connection
      on `port`, or `|candidates|` when none does. */
  function FirstAccepting(candidates: seq<MXRecord>, port: int, connects: (string, int) -> bool, i: nat): (k: nat)
    requires i <= |candidates|
    ensures i <= k <= |candidates|
    ensures forall j :: i <= j < k ==> !connects(candidates[j].exchange, port)
    ensures k < |candidates| ==> connects(candidates[k].exchange, port)
    decreases |candidates| - i
  {
    if i == |candidates| || connects(candidates[i].exchange, port) then i
    else FirstAccepting(candidates, port, connects, i + 1)
  }

  /** The outcome of the failover over `candidates`, as a function. */
  function Failover(candidates: seq<MXRecord>, port: int, domain: string, connects: (string, int) -> bool)
    : Result<nat, string>
  {
    var k := FirstAccepting(candidates, port, connects, 0);
    if k < |candidates| then Success(k) else Failure("Could not connect to any SMTP server for " + domain)
  }

  /** `tryConnect(0)`: candidates are tried one at a time, in list order, until one
      accepts a connection on `port`; the result is that candidate's index, and
      `tried` lists the hosts attempted. */
  method TryConnect(candidates: seq<MXRecord>, port: int, domain: string, connects: (string, int) -> bool)
    returns (r: Result<nat, string>, tried: seq<string>)
    ensures r.Success? ==>
      && r.value < |candidates|
      && connects(candidates[r.value].exchange, port)
      && (forall k :: 0 <= k < r.value ==> !connects(candidates[k].exchange, port))
      && tried == Exchanges(candidates[..r.value + 1])
    ensures r.Failure? ==>
      && (forall k :: 0 <= k < |candidates| ==> !connects(candidates[k].exchange, port))
      && r.error == "Could not connect to any SMTP server for " + domain
      && tried == Exchanges(candidates)
    ensures r == Failover(candidates, port, domain, connects)
  {
    var i := 0;
    tried := [];
    while true
      invariant 0 <= i <= |candidates|
      invariant forall k :: 0 <= k < i ==> !connects(candidates[k].exchange, port)
      invariant tried == Exchanges(candidates[..i])
      decreases |candidates| - i
    {
      if i >= |candidates| {
        assert candidates[..i] == candidates;
        return Failure("Could not connect to any SMTP server for " + domain), tried;
      }
      assert candidates[..i + 1][..i] == candidates[..i];
      tried := tried + [candidates[i].exchange];
      if connects(candidates[i].exchange, port) {
        return Success(i), tried;
      }
      i := i + 1;
    }
  }
}
