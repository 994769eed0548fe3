/** The replication loop and the paths of replication files. */
module Replicator {
  import opened Basics

  // ---- Paths ----

  function Digit(n: nat): char
    requires n < 10
  {
    "0123456789"[n]
  }

  function Decimal(n: nat): string {
    if n < 10 then [Digit(n)] else Decimal(n / 10) + [Digit(n % 10)]
  }

  /** setw(3) with setfill('0'): longer numbers are not cut. */
  function Pad3(s: string): string
    decreases 3 - |s|
  {
    if |s| < 3 then Pad3("0" + s) else s
  }

  lemma ParseLast(acc: nat, part: string)
    requires '/' !in part
    ensures ParsePath(acc, part) == 1000 * acc + Value(part)
  {
  }

  /** The padded decimal of n. */
  function Part(n: nat): string {
    Pad3(Decimal(n))
  }

  function SequenceToPath(n: nat): string {
    Part(n / 1000000) + "/" + Part(n / 1000 % 1000) + "/" + Part(n % 1000)
  }

  /** Reference reader: decimal numbers separated by slashes, as one number in base 1000. */
  function Value(s: string): nat {
    if s == "" then 0
    else var c := s[|s| - 1]; 10 * Value(s[..|s| - 1]) + if '0' <= c <= '9' then c as int - '0' as int else 0
  }

  function ParsePath(acc: nat, s: string): nat
    decreases |s|
  {
    if '/' !in s then 1000 * acc + Value(s)
    else var i := Slash(s); ParsePath(1000 * acc + Value(s[..i]), s[i + 1..])
  }

  function Slash(s: string): (i: nat)
    requires '/' in s
    ensures i < |s| && s[i] == '/' && '/' !in s[..i]
  {
    if s[0] == '/' then 0 else 1 + Slash(s[1..])
  }

  lemma {:induction false} DecimalValue(n: nat)
    ensures Value(Decimal(n)) == n && '/' !in Decimal(n)
  {
    if n >= 10 {
      DecimalValue(n / 10);
      assert Decimal(n)[..|Decimal(n)| - 1] == Decimal(n / 10);
    }
  }

  lemma {:induction false} LeadingZero(s: string)
    ensures Value("0" + s) == Value(s)
  {
    if s != "" {
      LeadingZero(s[..|s| - 1]);
      assert ("0" + s)[..|s|] == "0" + s[..|s| - 1];
    }
  }

  lemma {:induction false} PadValue(s: string)
    requires '/' !in s
    ensures Value(Pad3(s)) == Value(s) && '/' !in Pad3(s)
    decreases 3 - |s|
  {
    if |s| < 3 {
      LeadingZero(s);
      PadValue("0" + s);
    }
  }

  lemma {:induction false} SlashIs(s: string, k: nat)
    requires k < |s| && s[k] == '/' && forall i | 0 <= i < k :: s[i] != '/'
    ensures '/' in s && Slash(s) == k
  {
    if k > 0 {
      SlashIs(s[1..], k - 1);
    }
  }

  lemma ParsePart(acc: nat, part: string, rest: string)
    requires '/' !in part
    ensures ParsePath(acc, part + "/" + rest) == ParsePath(1000 * acc + Value(part), rest)
  {
    var s := part + "/" + rest;
    SlashIs(s, |part|);
    assert s[..|part|] == part && s[|part| + 1..] == rest;
  }

  lemma PartValue(n: nat)
    ensures Value(Part(n)) == n && '/' !in Part(n)
  {
    DecimalValue(n);
    PadValue(Decimal(n));
  }

  lemma Thousands(n: nat)
    ensures n == 1000 * (1000 * (n / 1000000) + n / 1000 % 1000) + n % 1000
  {
    assert n / 1000 / 1000 == n / 1000000;
  }

  /** Every path reads back as its sequence number, so no two files share a path. */
  lemma PathRoundTrip(n: nat)
    ensures ParsePath(0, SequenceToPath(n)) == n
  {
    hide Part, Value, ParsePath;
    var a, b, c := n / 1000000, n / 1000 % 1000, n % 1000;
    PartValue(a);
    PartValue(b);
    PartValue(c);
    assert SequenceToPath(n) == Part(a) + "/" + (Part(b) + "/" + Part(c));
    ParsePart(0, Part(a), Part(b) + "/" + Part(c));
    ParsePart(a, Part(b), Part(c));
    ParseLast(1000 * a + b, Part(c));
    Thousands(n);
  }

  predicate AllDigits(s: string) {
    forall i | 0 <= i < |s| :: '0' <= s[i] <= '9'
  }

  lemma {:induction false} DecimalShape(n: nat)
    ensures Decimal(n) != "" && AllDigits(Decimal(n)) && (Decimal(n)[0] == '0' ==> n == 0)
    ensures |Decimal(n)| == 1 <==> n < 10
    ensures |Decimal(n)| == 2 <==> 10 <= n < 100
    ensures |Decimal(n)| == 3 <==> 100 <= n < 1000
  {
    if n >= 10 {
      DecimalShape(n / 10);
    }
  }

  /** A part has three digits, or more if the number does, and then no leading zero. */
  lemma PartShape(n: nat)
    ensures |Part(n)| >= 3 && AllDigits(Part(n)) && Value(Part(n)) == n
    ensures |Part(n)| == 3 <==> n < 1000
    ensures n >= 1000 ==> Part(n)[0] != '0'
  {
    hide Decimal, Value;
    DecimalShape(n);
    PartValue(n);
    var s := Decimal(n);
    if |s| == 1 {
      assert Pad3(s) == Pad3("0" + s) == "0" + ("0" + s);
    } else if |s| == 2 {
      assert Pad3(s) == "0" + s;
    }
  }

  /** A path consists of three parts, of which the last two have exactly three digits. */
  lemma PathShape(n: nat) returns (a: string, b: string, c: string)
    ensures SequenceToPath(n) == a + "/" + b + "/" + c && AllDigits(a + b + c)
    ensures |b| == |c| == 3 <= |a| && (n < 1_000_000_000 ==> |a| == 3)
    ensures Value(a) == n / 1000000 && Value(b) == n / 1000 % 1000 && Value(c) == n % 1000
  {
    hide Part, Value;
    a, b, c := Part(n / 1000000), Part(n / 1000 % 1000), Part(n % 1000);
    PartShape(n / 1000000);
    PartShape(n / 1000 % 1000);
    PartShape(n % 1000);
  }

  lemma PathsAreDistinct(m: nat, n: nat)
    requires SequenceToPath(m) == SequenceToPath(n)
    ensures m == n
  {
    PathRoundTrip(m);
    PathRoundTrip(n);
  }

  // ---- Polling ----

  /** How one downloadAndApply ends. The process may also be killed: while applying (ApplyFails), or
      before or after the sequence number is committed (RecordFails). */
  datatype Outcome = NoDownload | ApplyFails | RecordFails(committed: bool) | Done {
    predicate Applied() { RecordFails? || Done? }
    predicate Recorded() { Done? || (RecordFails? && committed) }
  }

  datatype Attempt = Attempt(seqNo: int, outcome: Outcome)

  /** One round of the outer loop: whether the local number could be read, what the server said, and
      how the attempts of the round end. An interrupt stops the round after its last outcome. */
  datatype Round = Round(dbReadable: bool, remote: Option<int>, outcomes: seq<Outcome>, interrupted: bool)

  /** The number stored in the database after these attempts. */
  function StoredAfter(start: int, log: seq<Attempt>): int {
    if log == [] then start
    else
      var a := log[|log| - 1];
      if a.outcome.Recorded() then a.seqNo else StoredAfter(start, log[..|log| - 1])
  }

  /** The number of the file that was applied last. */
  function AppliedAfter(start: int, log: seq<Attempt>): int {
    if log == [] then start
    else
      var a := log[|log| - 1];
      if a.outcome.Applied() then a.seqNo else AppliedAfter(start, log[..|log| - 1])
  }

  /** Every attempt is made for the file after the stored number. */
  ghost predicate Orderly(start: int, log: seq<Attempt>) {
    forall i | 0 <= i < |log| :: log[i].seqNo == StoredAfter(start, log[..i]) + 1
  }

  lemma OrderlyAppend(start: int, log: seq<Attempt>, a: Attempt)
    requires Orderly(start, log) && a.seqNo == StoredAfter(start, log) + 1
    ensures Orderly(start, log + [a])
    ensures StoredAfter(start, log + [a]) == if a.outcome.Recorded() then a.seqNo else StoredAfter(start, log)
  {
    var more := log + [a];
    assert more[..|log|] == log;
    forall i | 0 <= i < |more| ensures more[i].seqNo == StoredAfter(start, more[..i]) + 1 {
      assert i < |log| ==> more[..i] == log[..i];
    }
  }

  class Replicator {
    /** The number in the database, and the attempts made so far; both outlive the process. */
    var stored: int
    var log: seq<Attempt>
    /** g_stop. */
    var stop: bool
    const start: int

    ghost predicate Valid()
      reads this
    {
      start >= 0 && stored == StoredAfter(start, log) && Orderly(start, log)
    }

    constructor (start: int)
      requires start >= 0
      ensures Valid() && stored == this.start == start && log == [] && !stop
    {
      this.start, stored, log, stop := start, start, [], false;
    }

    method DownloadAndApply(n: int, outcome: Outcome) returns (ok: bool)
      requires Valid() && n == stored + 1
      modifies this`stored, this`log
      ensures Valid() && ok == outcome.Done?
      ensures log == old(log) + [Attempt(n, outcome)]
      ensures stored == if outcome.Recorded() then n else old(stored)
    {
      hide StoredAfter, Orderly;
      OrderlyAppend(start, log, Attempt(n, outcome));
      log := log + [Attempt(n, outcome)];
      if outcome.Recorded() {
        stored := n;
      }
      ok := outcome.Done?;
    }

    /** The inner loop: all pending files, up to the first one that fails. */
    method ApplyPending(remote: int, outcomes: seq<Outcome>)
      requires Valid() && !stop
      modifies this`stored, this`log, this`stop
      ensures Valid()
      ensures log == old(log) + RoundAttempts(old(stored) + 1, remote, outcomes)
      ensures stop == RoundStops(old(stored) + 1, remote, outcomes)
    {
      hide StoredAfter, Orderly, RoundAttempts, RoundStops;
      ghost var n0, log0 := stored + 1, log;
      var n, j := stored + 1, 0;
      assert outcomes[0..] == outcomes;
      while n <= remote && !stop
        invariant Valid() && j <= |outcomes| && !stop && n == stored + 1
        invariant log + RoundAttempts(n, remote, outcomes[j..]) == log0 + RoundAttempts(n0, remote, outcomes)
        invariant RoundStops(n, remote, outcomes[j..]) == RoundStops(n0, remote, outcomes)
        decreases remote - n + 1
      {
        RoundUnfolds(log, n, remote, outcomes, j);
        if j >= |outcomes| {
          stop := true;
          return;
        }
        var ok := DownloadAndApply(n, outcomes[j]);
        if !ok {
          stop := true;
          return;
        }
        n, j := n + 1, j + 1;
      }
      RoundEnds(log, n, remote, outcomes[j..]);
    }

    /** One process: rounds until something stops it. */
    method Poll(rounds: seq<Round>)
      requires Valid()
      modifies this`stored, this`log, this`stop
      ensures Valid() && log == old(log) + PollAttempts(old(stored), old(stop), rounds)
    {
      hide StoredAfter, Orderly, RoundAttempts, RoundStops;
      ghost var attempts := PollAttempts(stored, stop, rounds);
      var k := 0;
      assert rounds[0..] == rounds;
      while !stop && k < |rounds|
        invariant Valid() && k <= |rounds|
        invariant log + PollAttempts(stored, stop, rounds[k..]) == old(log) + attempts
        decreases |rounds| - k
      {
        var r := rounds[k];
        assert rounds[k..][1..] == rounds[k + 1..];
        k := k + 1;
        var local := if r.dbReadable then stored else -1;
        if r.remote.None? {
          continue;
        }
        if local < 0 {
          return;
        }
        if local >= r.remote.value {
          continue;
        }
        ghost var log0 := log;
        ApplyPending(r.remote.value, r.outcomes);
        StoredAppend(start, log0, RoundAttempts(local + 1, r.remote.value, r.outcomes));
        stop := stop || r.interrupted;
      }
    }

    /** Any number of processes, one after the other. */
    method Lifetime(processes: seq<seq<Round>>)
      requires Valid()
      modifies this`stored, this`log, this`stop
      ensures Valid() && log == old(log) + LifetimeAttempts(old(stored), processes)
    {
      hide StoredAfter, Orderly, PollAttempts;
      ghost var attempts := LifetimeAttempts(stored, processes);
      assert processes[0..] == processes;
      for k := 0 to |processes|
        invariant Valid() && log + LifetimeAttempts(stored, processes[k..]) == old(log) + attempts
      {
        assert processes[k..][1..] == processes[k + 1..];
        ghost var log0, made := log, PollAttempts(stored, false, processes[k]);
        stop := false;
        Poll(processes[k]);
        StoredAppend(start, log0, made);
      }
    }
  }

  /** The attempts of the loop over pending files that starts at file n. */
  function RoundAttempts(n: int, remote: int, outcomes: seq<Outcome>): seq<Attempt>
    decreases |outcomes|
  {
    if n > remote || outcomes == [] then []
    else [Attempt(n, outcomes[0])] + if outcomes[0].Done? then RoundAttempts(n + 1, remote, outcomes[1..]) else []
  }

  /** Whether that loop ends by a failure or an interrupt. */
  predicate RoundStops(n: int, remote: int, outcomes: seq<Outcome>)
    decreases |outcomes|
  {
    n <= remote && (outcomes == [] || !outcomes[0].Done? || RoundStops(n + 1, remote, outcomes[1..]))
  }

  lemma RoundUnfolds(log: seq<Attempt>, n: int, remote: int, outcomes: seq<Outcome>, j: nat)
    requires n <= remote && j <= |outcomes|
    ensures j == |outcomes| ==>
              log + RoundAttempts(n, remote, outcomes[j..]) == log && RoundStops(n, remote, outcomes[j..])
    ensures j < |outcomes| && !outcomes[j].Done? ==>
              && log + RoundAttempts(n, remote, outcomes[j..]) == log + [Attempt(n, outcomes[j])]
              && RoundStops(n, remote, outcomes[j..])
    ensures j < |outcomes| && outcomes[j].Done? ==>
              && log + RoundAttempts(n, remote, outcomes[j..])
                 == log + [Attempt(n, outcomes[j])] + RoundAttempts(n + 1, remote, outcomes[j + 1..])
              && RoundStops(n, remote, outcomes[j..]) == RoundStops(n + 1, remote, outcomes[j + 1..])
  {
    if j < |outcomes| {
      assert outcomes[j..][1..] == outcomes[j + 1..];
    }
  }

  lemma RoundEnds(log: seq<Attempt>, n: int, remote: int, outcomes: seq<Outcome>)
    requires n > remote
    ensures log + RoundAttempts(n, remote, outcomes) == log && !RoundStops(n, remote, outcomes)
  {
  }

  /** The attempts of a process that starts with this stored number. */
  function PollAttempts(stored: int, stop: bool, rounds: seq<Round>): seq<Attempt>
    decreases |rounds|
  {
    if stop || rounds == [] then []
    else
      var r := rounds[0];
      if r.remote.None? then PollAttempts(stored, false, rounds[1..])
      else if !r.dbReadable || stored < 0 then []
      else if stored >= r.remote.value then PollAttempts(stored, false, rounds[1..])
      else
        var made := RoundAttempts(stored + 1, r.remote.value, r.outcomes);
        var stops := RoundStops(stored + 1, r.remote.value, r.outcomes) || r.interrupted;
        made + PollAttempts(StoredAfter(stored, made), stops, rounds[1..])
  }

  function LifetimeAttempts(stored: int, processes: seq<seq<Round>>): seq<Attempt>
    decreases |processes|
  {
    if processes == [] then []
    else
      var made := PollAttempts(stored, false, processes[0]);
      made + LifetimeAttempts(StoredAfter(stored, made), processes[1..])
  }

  lemma {:induction false} StoredAppend(start: int, log: seq<Attempt>, made: seq<Attempt>)
    ensures StoredAfter(start, log + made) == StoredAfter(StoredAfter(start, log), made)
    decreases |made|
  {
    if made == [] {
      assert log + made == log;
    } else {
      var all, front := log + made, made[..|made| - 1];
      assert all[..|all| - 1] == log + front && all[|all| - 1] == made[|made| - 1];
      StoredAppend(start, log, front);
    }
  }

  /** A round in which nothing fails catches up with the server. */
  lemma {:induction false} RoundCatchesUp(stored: int, remote: int, outcomes: seq<Outcome>)
    requires stored <= remote && |outcomes| >= remote - stored
    requires forall i | 0 <= i < |outcomes| :: outcomes[i].Done?
    ensures StoredAfter(stored, RoundAttempts(stored + 1, remote, outcomes)) == remote
    ensures !RoundStops(stored + 1, remote, outcomes)
    decreases |outcomes|
  {
    if stored < remote {
      var first, rest := [Attempt(stored + 1, Done)], RoundAttempts(stored + 2, remote, outcomes[1..]);
      assert RoundAttempts(stored + 1, remote, outcomes) == first + rest;
      StoredAppend(stored, first, rest);
      RoundCatchesUp(stored + 1, remote, outcomes[1..]);
    }
  }

  /** The attempts of a round are for the files from n on, up to the server's number, and only the last can fail. */
  lemma {:induction false} RoundAttemptsAre(n: int, remote: int, outcomes: seq<Outcome>)
    ensures var log := RoundAttempts(n, remote, outcomes);
            && |log| <= |outcomes|
            && (forall i | 0 <= i < |log| :: log[i] == Attempt(n + i, outcomes[i]) && n + i <= remote)
            && (forall i | 0 <= i < |log| - 1 :: log[i].outcome.Done?)
            && (|log| == |outcomes| || n + |log| > remote || (log != [] && !log[|log| - 1].outcome.Done?))
    decreases |outcomes|
  {
    if n <= remote && outcomes != [] && outcomes[0].Done? {
      RoundAttemptsAre(n + 1, remote, outcomes[1..]);
      var rest := RoundAttempts(n + 1, remote, outcomes[1..]);
      assert RoundAttempts(n, remote, outcomes) == [Attempt(n, outcomes[0])] + rest;
      assert rest != [] ==> RoundAttempts(n, remote, outcomes)[|rest|] == rest[|rest| - 1];
      assert forall i | 0 < i < |outcomes| :: outcomes[1..][i - 1] == outcomes[i];
    }
  }

  /** A round is quiet if it cannot fail: the server and the database answer and every pending file succeeds. */
  predicate Quiet(stored: int, r: Round) {
    && r.dbReadable && r.remote.Some? && !r.interrupted
    && (forall i | 0 <= i < |r.outcomes| :: r.outcomes[i].Done?) && |r.outcomes| >= r.remote.value - stored
  }

  lemma QuietRound(stored: int, r: Round, rest: seq<Round>)
    requires stored >= 0 && Quiet(stored, r)
    ensures var made := if stored >= r.remote.value then [] else RoundAttempts(stored + 1, r.remote.value, r.outcomes);
            var now := if stored >= r.remote.value then stored else r.remote.value;
            && StoredAfter(stored, made) == now
            && PollAttempts(stored, false, [r] + rest) == made + PollAttempts(now, false, rest)
  {
    assert ([r] + rest)[1..] == rest;
    if stored < r.remote.value {
      RoundCatchesUp(stored, r.remote.value, r.outcomes);
    }
  }

  /** A process whose rounds are all quiet ends at the highest number the server gave, however often it polls. */
  lemma {:induction false} PollCatchesUp(stored: int, rounds: seq<Round>)
    requires stored >= 0 && forall i | 0 <= i < |rounds| :: Quiet(stored, rounds[i])
    ensures var end := StoredAfter(stored, PollAttempts(stored, false, rounds));
            && end >= stored
            && (forall i | 0 <= i < |rounds| :: rounds[i].remote.Some? && end >= rounds[i].remote.value)
            && (end == stored || exists i :: 0 <= i < |rounds| && rounds[i].remote == Some(end))
    decreases |rounds|
  {
    hide StoredAfter, RoundAttempts;
    if rounds == [] {
      NothingStored(stored);
    } else {
      var r, rest := rounds[0], rounds[1..];
      var made := if stored >= r.remote.value then [] else RoundAttempts(stored + 1, r.remote.value, r.outcomes);
      var now := if stored >= r.remote.value then stored else r.remote.value;
      assert rounds == [r] + rest;
      QuietRound(stored, r, rest);
      assert forall i | 0 < i < |rounds| :: rounds[i] == rest[i - 1];
      PollCatchesUp(now, rest);
      StoredAppend(stored, made, PollAttempts(now, false, rest));
    }
  }

  lemma NothingStored(stored: int)
    ensures StoredAfter(stored, []) == stored
  {
  }

  /** Every attempt of a process is for a file that is behind the number that the server gave in some round. */
  lemma {:induction false} PollWithinRemote(stored: int, stop: bool, rounds: seq<Round>, i: nat)
    requires i < |PollAttempts(stored, stop, rounds)|
    ensures exists k :: 0 <= k < |rounds| && rounds[k].remote.Some? && rounds[k].dbReadable
                        && PollAttempts(stored, stop, rounds)[i].seqNo <= rounds[k].remote.value
    decreases |rounds|
  {
    hide StoredAfter, RoundStops;
    var r, rest := rounds[0], rounds[1..];
    assert forall k | 0 < k < |rounds| :: rounds[k] == rest[k - 1];
    if r.remote.None? || stored >= r.remote.value {
      PollWithinRemote(stored, false, rest, i);
    } else {
      var made := RoundAttempts(stored + 1, r.remote.value, r.outcomes);
      var stops := RoundStops(stored + 1, r.remote.value, r.outcomes) || r.interrupted;
      RoundAttemptsAre(stored + 1, r.remote.value, r.outcomes);
      if i >= |made| {
        PollWithinRemote(StoredAfter(stored, made), stops, rest, i - |made|);
      }
    }
  }

  // ---- What an orderly log guarantees ----

  /** The stored number never passes the last applied file, and is at most one behind it. */
  lemma {:induction false} StoredBehindApplied(start: int, log: seq<Attempt>)
    requires Orderly(start, log)
    ensures StoredAfter(start, log) <= AppliedAfter(start, log) <= StoredAfter(start, log) + 1
    decreases |log|
  {
    if log != [] {
      OrderlyPrefix(start, log, |log| - 1);
      StoredBehindApplied(start, log[..|log| - 1]);
    }
  }

  lemma OrderlyPrefix(start: int, log: seq<Attempt>, k: nat)
    requires Orderly(start, log) && k <= |log|
    ensures Orderly(start, log[..k])
  {
    forall i | 0 <= i < k ensures log[..k][i].seqNo == StoredAfter(start, log[..k][..i]) + 1 {
      assert log[..k][..i] == log[..i];
    }
  }

  /** Files are applied without gaps: every number up to the last applied one was applied. */
  lemma {:induction false} NoGaps(start: int, log: seq<Attempt>, n: int)
    requires Orderly(start, log) && start < n <= AppliedAfter(start, log)
    ensures exists i :: 0 <= i < |log| && log[i].seqNo == n && log[i].outcome.Applied()
    decreases |log|
  {
    var front := log[..|log| - 1];
    var a := log[|log| - 1];
    OrderlyPrefix(start, log, |log| - 1);
    StoredBehindApplied(start, front);
    if !(a.outcome.Applied() && a.seqNo == n) {
      NoGaps(start, front, n);
      var i :| 0 <= i < |front| && front[i].seqNo == n && front[i].outcome.Applied();
      assert log[i] == front[i];
    }
  }

  /** The stored number only grows. */
  lemma {:induction false} StoredGrows(start: int, log: seq<Attempt>, i: nat)
    requires Orderly(start, log) && i <= |log|
    ensures StoredAfter(start, log[..i]) <= StoredAfter(start, log)
    decreases |log|
  {
    if i < |log| {
      OrderlyPrefix(start, log, |log| - 1);
      assert log[..|log| - 1][..i] == log[..i];
      StoredGrows(start, log[..|log| - 1], i);
    } else {
      assert log[..i] == log;
    }
  }

  /** A file that was applied is tried again only if its number was not recorded. */
  lemma OnlyUnrecordedRepeats(start: int, log: seq<Attempt>, i: nat, j: nat)
    requires Orderly(start, log) && i < j < |log| && log[j].seqNo <= log[i].seqNo && log[i].outcome.Applied()
    ensures log[i].outcome == RecordFails(false) && log[j].seqNo == log[i].seqNo
  {
    assert log[..i + 1][..i] == log[..i];
    OrderlyPrefix(start, log, j);
    assert log[..j][..i + 1] == log[..i + 1] && log[..j][..i] == log[..i];
    StoredGrows(start, log[..j], i + 1);
    StoredGrows(start, log[..j], i);
  }
}
