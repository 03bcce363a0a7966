/**
 Rolling a log file, on values: the rolled files newest first, the active file and the start of the
 period it belongs to. Times are nanoseconds since the epoch.
 */
module Rolling {
  import opened Options

  type Byte = b: nat | b < 256

  datatype Granularity = Minutely | Hourly | Daily | Never

  datatype Policy = Policy(granularity: Granularity, maxFileSize: Option<nat>, maxRetained: Option<nat>,
                           maxUncompressed: Option<nat>)

  const SECOND: nat := 1_000_000_000
  const DAY: nat := 86_400 * SECOND

  function Unit(g: Granularity): (n: nat)
    ensures n > 0
  {
    match g
    case Minutely => 60 * SECOND
    case Hourly => 3_600 * SECOND
    case _ => DAY
  }

  function PeriodStart(g: Granularity, now: int): (p: int)
  {
    if g == Never then 0 else now - now % Unit(g)
  }

  /** The instant that a file name's period reads back as: names keep only whole units, whole days if never. */
  function Named(g: Granularity, ts: int): (p: int)
  {
    ts - ts % Unit(g)
  }

  /** A period's name reads back as the period, and periods do not go back while the clock does not. */
  lemma PeriodsAreNamed(g: Granularity, now: int, later: int)
    requires now <= later
    ensures Named(g, PeriodStart(g, now)) == PeriodStart(g, now) <= PeriodStart(g, later)
  {
    var u := Unit(g);
    Truncated(now, u);
    Truncated(later, u);
    TruncationIsMonotone(now / u, later / u, u, now % u, later % u);
  }

  /** A period is the minute, the hour or the day that the clock is in; without periods there is one, from 0 on. */
  lemma PeriodsAreWholeUnits(g: Granularity, now: int)
    ensures var p := PeriodStart(g, now);
            match g
            case Minutely => p % 60_000_000_000 == 0 && p <= now < p + 60_000_000_000
            case Hourly => p % 3_600_000_000_000 == 0 && p <= now < p + 3_600_000_000_000
            case Daily => p % 86_400_000_000_000 == 0 && p <= now < p + 86_400_000_000_000
            case Never => p == 0
  {
    Truncated(now, Unit(g));
  }

  /** A file's name tells the minute, the hour or the day of its time; without periods, the day. */
  lemma NamesAreWholeUnits(g: Granularity, ts: int)
    ensures var p := Named(g, ts);
            match g
            case Minutely => p % 60_000_000_000 == 0 && p <= ts < p + 60_000_000_000
            case Hourly => p % 3_600_000_000_000 == 0 && p <= ts < p + 3_600_000_000_000
            case _ => p % 86_400_000_000_000 == 0 && p <= ts < p + 86_400_000_000_000
  {
    Truncated(ts, Unit(g));
  }

  lemma Truncated(t: int, u: nat)
    requires u > 0
    ensures t == t / u * u + t % u && (t - t % u) % u == 0
  {
    var q := t / u;
    MultipleOf(q, u);
  }

  lemma MultipleOf(q: int, u: nat)
    requires u > 0
    ensures (q * u) % u == 0
  {
    var d, m := q * u / u, q * u % u;
    assert q * u == d * u + m;
    assert (q - d) * u == m;
    if q > d {
      Times(1, q - d, u);
    } else if q < d {
      Times(1, d - q, u);
    }
  }

  lemma Times(a: nat, b: nat, u: nat)
    requires a <= b
    ensures a * u <= b * u
  {
  }

  lemma TruncationIsMonotone(a: int, b: int, u: nat, m: nat, n: nat)
    requires m < u && n < u && a * u + m <= b * u + n
    ensures a * u <= b * u
  {
    if a > b {
      Times(1, a - b, u);
    }
  }

  // ------------------------------------------------------------------- the files

  datatype Rolled = Rolled(period: int, sequence: nat, content: seq<Byte>, compressed: bool, suffixed: bool)

  predicate Newer(a: Rolled, b: Rolled)
  {
    a.period > b.period || (a.period == b.period && a.sequence > b.sequence)
  }

  /** Newest first, no two of one name. */
  ghost predicate Descending(files: seq<Rolled>)
  {
    forall i, j :: 0 <= i < j < |files| ==> Newer(files[i], files[j])
  }

  /** The files read in the order (period, sequence), oldest first. */
  function Text(files: seq<Rolled>): (bytes: seq<Byte>)
  {
    if files == [] then [] else Text(files[1..]) + files[0].content
  }

  datatype Log = Log(files: seq<Rolled>, active: seq<Byte>, period: int)

  function Contents(log: Log): (bytes: seq<Byte>)
  {
    Text(log.files) + log.active
  }

  /** No rolled file is of a later period than the active one. */
  ghost predicate Sound(policy: Policy, log: Log)
  {
    && Descending(log.files)
    && Named(policy.granularity, log.period) == log.period
    && forall i :: 0 <= i < |log.files| ==> log.files[i].period <= log.period
  }

  ghost predicate IsSuffix(a: seq<Byte>, b: seq<Byte>)
  {
    |a| <= |b| && a == b[|b| - |a|..]
  }

  /** What is kept of `all`: its tail, and the whole of it without a retention limit. */
  ghost predicate Tail(policy: Policy, kept: seq<Byte>, all: seq<Byte>)
  {
    IsSuffix(kept, all) && (policy.maxRetained.None? ==> kept == all)
  }

  // ------------------------------------------------------------------ the rolling

  function LastSequence(g: Granularity, files: seq<Rolled>, period: int): (last: nat)
  {
    if files == [] then 0
    else
      var rest := LastSequence(g, files[1..], period);
      if Named(g, files[0].period) == Named(g, period) && files[0].sequence > rest then files[0].sequence else rest
  }

  function Target(g: Granularity, log: Log): (f: Rolled)
  {
    Rolled(Named(g, log.period), LastSequence(g, log.files, log.period) + 1, log.active, false, true)
  }

  /** Sorting a file in among sorted ones. */
  function Insert(files: seq<Rolled>, f: Rolled): (all: seq<Rolled>)
  {
    if files == [] || !Newer(files[0], f) then [f] + files else [files[0]] + Insert(files[1..], f)
  }

  /** How many of `n` files a clean-up keeps. */
  function Limit(policy: Policy, n: nat): (k: nat)
    ensures k <= n
  {
    if policy.maxRetained.Some? && policy.maxRetained.value < n then policy.maxRetained.value else n
  }

  function Kept(policy: Policy, files: seq<Rolled>): (kept: seq<Rolled>)
  {
    files[..Limit(policy, |files|)]
  }

  /** Compresses, from position `from` on, the files that are not and that have the log's suffix. */
  function Compressed(files: seq<Rolled>, from: nat): (r: seq<Rolled>)
    ensures |r| == |files|
    ensures forall i :: 0 <= i < |r| ==> r[i] == if i < from then files[i] else Squeezed(files[i])
  {
    seq(|files|, i requires 0 <= i < |files| => if i < from then files[i] else Squeezed(files[i]))
  }

  function Squeezed(f: Rolled): (r: Rolled)
  {
    if f.suffixed then f.(compressed := true) else f
  }

  function Cleaned(policy: Policy, files: seq<Rolled>): (r: seq<Rolled>)
  {
    var kept := Kept(policy, files);
    if policy.maxUncompressed.Some? then Compressed(kept, policy.maxUncompressed.value) else kept
  }

  function Roll(policy: Policy, log: Log, now: int): (after: Log)
  {
    Log(Cleaned(policy, Insert(log.files, Target(policy.granularity, log))), [], PeriodStart(policy.granularity, now))
  }

  /** The state at the moment a write's bytes go out, after a roll for the period. */
  function Turned(policy: Policy, log: Log, now: int): (after: Log)
  {
    if PeriodStart(policy.granularity, now) > log.period then Roll(policy, log, now) else log
  }

  predicate IsFull(policy: Policy, size: nat)
  {
    policy.maxFileSize.Some? && size >= policy.maxFileSize.value
  }

  /** Writes the bytes that the writer takes; an empty write does not look at the size. */
  function Write(policy: Policy, log: Log, bytes: seq<Byte>, now: int): (after: Log)
  {
    var turned := Turned(policy, log, now);
    var written := Appended(turned, bytes);
    if bytes != [] && IsFull(policy, |written.active|) then Roll(policy, written, now) else written
  }

  // --------------------------------------------------------- what a roll preserves

  lemma {:induction false} LastSequenceIsLast(g: Granularity, files: seq<Rolled>, period: int, i: nat)
    requires i < |files| && Named(g, files[i].period) == Named(g, period)
    ensures files[i].sequence <= LastSequence(g, files, period)
  {
    if i > 0 {
      LastSequenceIsLast(g, files[1..], period, i - 1);
    }
  }

  /** The name a file is rolled to is never in use, whatever the clock did. */
  lemma TargetIsUnused(g: Granularity, log: Log, i: nat)
    requires i < |log.files|
    ensures var f := Target(g, log); f.period != log.files[i].period || f.sequence != log.files[i].sequence
  {
    if log.files[i].period == Named(g, log.period) {
      Truncated(log.period, Unit(g));
      LastSequenceIsLast(g, log.files, log.period, i);
    }
  }

  /** In a sound log the file being rolled is the newest of all. */
  lemma TargetIsNewest(policy: Policy, log: Log)
    requires Sound(policy, log)
    ensures forall i :: 0 <= i < |log.files| ==> Newer(Target(policy.granularity, log), log.files[i])
    ensures Insert(log.files, Target(policy.granularity, log)) == [Target(policy.granularity, log)] + log.files
  {
    var g := policy.granularity;
    forall i | 0 <= i < |log.files|
      ensures Newer(Target(g, log), log.files[i])
    {
      if log.files[i].period == log.period {
        LastSequenceIsLast(g, log.files, log.period, i);
      }
    }
  }

  lemma {:induction false} TextSplits(files: seq<Rolled>, n: nat)
    requires n <= |files|
    ensures Text(files) == Text(files[n..]) + Text(files[..n])
  {
    if n > 0 {
      TextSplits(files[1..], n - 1);
      assert files[1..][n - 1..] == files[n..] && files[1..][..n - 1] == files[..n][1..];
    }
  }

  lemma {:induction false} TextDependsOnContents(a: seq<Rolled>, b: seq<Rolled>)
    requires |a| == |b| && forall i :: 0 <= i < |a| ==> a[i].content == b[i].content
    ensures Text(a) == Text(b)
  {
    if a != [] {
      assert a[0].content == b[0].content;
      TextDependsOnContents(a[1..], b[1..]);
    }
  }

  /** Cleaning up keeps the newest files, their order and all their bytes. */
  lemma CleaningKeepsTheNewest(policy: Policy, files: seq<Rolled>)
    requires Descending(files)
    ensures Descending(Cleaned(policy, files))
    ensures IsSuffix(Text(Cleaned(policy, files)), Text(files))
    ensures policy.maxRetained.None? ==> Text(Cleaned(policy, files)) == Text(files)
    ensures forall i ::
              0 <= i < |Cleaned(policy, files)| ==> i < |files| && Cleaned(policy, files)[i].period == files[i].period
  {
    var kept := Kept(policy, files);
    TextSplits(files, |kept|);
    TextDependsOnContents(Cleaned(policy, files), kept);
  }

  /** How many files a clean-up leaves: all that the limit allows. */
  lemma RetentionIsExact(policy: Policy, files: seq<Rolled>)
    ensures |Cleaned(policy, files)| == Limit(policy, |files|)
    ensures forall i :: 0 <= i < |Cleaned(policy, files)| ==>
                          Cleaned(policy, files)[i] == files[i] ||
                              (policy.maxUncompressed.Some? && i >= policy.maxUncompressed.value &&
                               Cleaned(policy, files)[i] == files[i].(compressed := true))
  {
  }

  /** How many files, the newest, are of a later period. */
  function Lead(files: seq<Rolled>, period: int): (n: nat)
    ensures n <= |files|
  {
    if files == [] || files[0].period <= period then 0 else 1 + Lead(files[1..], period)
  }

  lemma {:induction false} LeadSplits(files: seq<Rolled>, period: int)
    requires Descending(files)
    ensures forall i :: 0 <= i < |files| ==> (i < Lead(files, period) <==> files[i].period > period)
  {
    if files != [] && files[0].period > period {
      LeadSplits(files[1..], period);
      assert forall i :: 0 < i < |files| ==> files[i] == files[1..][i - 1];
    }
  }

  /** A file of the log's period, of the next sequence number, is filed behind those of later periods. */
  lemma {:induction false} InsertPlaces(files: seq<Rolled>, f: Rolled)
    requires Descending(files)
    requires forall i :: 0 <= i < |files| && files[i].period == f.period ==> files[i].sequence < f.sequence
    ensures Insert(files, f) == files[..Lead(files, f.period)] + [f] + files[Lead(files, f.period)..]
  {
    if files != [] && files[0].period > f.period {
      InsertPlaces(files[1..], f);
      var n := Lead(files[1..], f.period);
      assert files[..n + 1] == [files[0]] + files[1..][..n] && files[n + 1..] == files[1..][n..];
    }
  }

  lemma TargetPlaces(policy: Policy, log: Log)
    requires Descending(log.files) && Named(policy.granularity, log.period) == log.period
    ensures var f, n := Target(policy.granularity, log), Lead(log.files, log.period);
            && f.period == log.period && Insert(log.files, f) == log.files[..n] + [f] + log.files[n..]
            && Descending(Insert(log.files, f))
  {
    var g := policy.granularity;
    var f, n := Target(g, log), Lead(log.files, log.period);
    forall i | 0 <= i < |log.files| && log.files[i].period == f.period
      ensures log.files[i].sequence < f.sequence
    {
      LastSequenceIsLast(g, log.files, log.period, i);
    }
    InsertPlaces(log.files, f);
    LeadSplits(log.files, log.period);
  }

  lemma {:induction false} NoText(files: seq<Rolled>)
    ensures Text(files) == [] <==> forall i :: 0 <= i < |files| ==> files[i].content == []
  {
    if files != [] {
      NoText(files[1..]);
      assert forall i :: 0 < i < |files| ==> files[i] == files[1..][i - 1];
    }
  }

  /** No file of a later period that a clean-up would keep holds a byte. */
  predicate Harmless(policy: Policy, log: Log)
  {
    forall i :: 0 <= i < Limit(policy, |log.files|) && log.files[i].period > log.period ==> log.files[i].content == []
  }

  /** In order, except for files of later periods. */
  ghost predicate Listed(policy: Policy, log: Log)
  {
    Descending(log.files) && Named(policy.granularity, log.period) == log.period
  }

  lemma NothingAheadWhenSound(policy: Policy, log: Log)
    requires Sound(policy, log)
    ensures Listed(policy, log) && Harmless(policy, log)
  {
  }

  /** Rolling a harmless log keeps its tail, and it stays harmless unless the period moves back. */
  lemma HarmlessRoll(policy: Policy, log: Log, now: int)
    requires Listed(policy, log) && Harmless(policy, log)
    ensures var after := Roll(policy, log, now);
            && Tail(policy, Contents(after), Contents(log)) && Listed(policy, after)
            && (log.period <= PeriodStart(policy.granularity, now) ==> Harmless(policy, after))
  {
    TargetPlaces(policy, log);
    PeriodsAreNamed(policy.granularity, now, now);
    LeadSplits(log.files, log.period);
    Relisted(policy, log, Target(policy.granularity, log), Lead(log.files, log.period), Roll(policy, log, now));
  }

  lemma Relisted(policy: Policy, log: Log, f: Rolled, n: nat, after: Log)
    requires Harmless(policy, log) && Named(policy.granularity, after.period) == after.period
    requires n <= |log.files| && forall i :: 0 <= i < |log.files| ==> (i < n <==> log.files[i].period > log.period)
    requires f.period == log.period && f.content == log.active
    requires var all := log.files[..n] + [f] + log.files[n..];
             Descending(all) && after.files == Cleaned(policy, all) && after.active == []
    ensures Tail(policy, Contents(after), Contents(log)) && Listed(policy, after)
    ensures log.period <= after.period ==> Harmless(policy, after)
  {
    var all := log.files[..n] + [f] + log.files[n..];
    CleaningKeepsTheNewest(policy, all);
    TailFiled(policy, log, f, n, all);
    assert Contents(after) == Text(after.files);
    if log.period <= after.period {
      HarmlessStays(policy, log, f, n, all, after);
    }
  }

  lemma TailFiled(policy: Policy, log: Log, f: Rolled, n: nat, all: seq<Rolled>)
    requires n <= |log.files| && forall i :: 0 <= i < n ==> log.files[i].period > log.period
    requires f.content == log.active && all == log.files[..n] + [f] + log.files[n..]
    requires Harmless(policy, log) && Descending(all)
    ensures Tail(policy, Text(Cleaned(policy, all)), Contents(log))
  {
    if |Kept(policy, all)| <= n {
      assert all[..n] == log.files[..n];
      TargetDropped(policy, log, n, all);
    } else {
      TargetKept(policy, log, f, n, all);
      CleaningKeepsTheNewest(policy, all);
    }
  }

  lemma TargetDropped(policy: Policy, log: Log, n: nat, all: seq<Rolled>)
    requires n <= |log.files| && forall i :: 0 <= i < n ==> log.files[i].period > log.period
    requires Harmless(policy, log) && |Kept(policy, all)| <= n < |all| == |log.files| + 1 && all[..n] == log.files[..n]
    ensures Text(Cleaned(policy, all)) == [] && policy.maxRetained.Some?
  {
    var kept := Kept(policy, all);
    TextDependsOnContents(Cleaned(policy, all), kept);
    forall i | 0 <= i < |kept|
      ensures kept[i].content == []
    {
      assert kept[i] == all[..n][i] == log.files[i];
    }
    NoText(kept);
  }

  lemma TargetKept(policy: Policy, log: Log, f: Rolled, n: nat, all: seq<Rolled>)
    requires n <= |log.files| && forall i :: 0 <= i < n ==> log.files[i].period > log.period
    requires f.content == log.active && all == log.files[..n] + [f] + log.files[n..]
    requires Harmless(policy, log) && n < |Kept(policy, all)|
    ensures Text(all) == Contents(log)
  {
    var ahead := log.files[..n];
    assert forall i :: 0 <= i < n ==> ahead[i] == log.files[i];
    NoText(ahead);
    FiledAtTheEnd(ahead, f, log.files[n..]);
    assert log.files == ahead + log.files[n..] && all == ahead + ([f] + log.files[n..]);
  }

  /** Behind files that hold nothing, a file reads as if it were the newest. */
  lemma FiledAtTheEnd(ahead: seq<Rolled>, f: Rolled, older: seq<Rolled>)
    requires Text(ahead) == []
    ensures Text(ahead + ([f] + older)) == Text(ahead + older) + f.content
  {
    TextAppends(ahead, older);
    TextAppends(ahead, [f] + older);
    TextFirst(f, older);
  }

  lemma TextAppends(a: seq<Rolled>, b: seq<Rolled>)
    ensures Text(a + b) == Text(b) + Text(a)
  {
    TextSplits(a + b, |a|);
    assert (a + b)[|a|..] == b && (a + b)[..|a|] == a;
  }

  lemma TextFirst(f: Rolled, rest: seq<Rolled>)
    ensures Text([f] + rest) == Text(rest) + f.content
  {
    assert ([f] + rest)[1..] == rest;
  }

  lemma HarmlessStays(policy: Policy, log: Log, f: Rolled, n: nat, all: seq<Rolled>, after: Log)
    requires n <= |log.files| && f.period == log.period && all == log.files[..n] + [f] + log.files[n..]
    requires forall i :: 0 <= i < |log.files| ==> (i < n <==> log.files[i].period > log.period)
    requires Harmless(policy, log) && after.files == Cleaned(policy, all) && log.period <= after.period
    ensures Harmless(policy, after)
  {
    RetentionIsExact(policy, all);
    forall i | 0 <= i < Limit(policy, |after.files|) && after.files[i].period > after.period
      ensures after.files[i].content == []
    {
      assert all[i].period == after.files[i].period && all[i].content == after.files[i].content;
      assert i < n && all[i] == log.files[i];
    }
  }

  /** And rolling any other log puts bytes of later periods last, behind the ones just rolled. */
  lemma HarmfulRoll(policy: Policy, log: Log, now: int, i: nat)
    requires Listed(policy, log) && i < Limit(policy, |log.files|)
    requires log.files[i].period > log.period && log.files[i].content != []
    ensures var ahead := Text(log.files[..Lead(log.files, log.period)][..Limit(policy, Lead(log.files, log.period))]);
            ahead != [] && IsSuffix(ahead, Contents(Roll(policy, log, now)))
  {
    var f, n := Target(policy.granularity, log), Lead(log.files, log.period);
    var all := log.files[..n] + [f] + log.files[n..];
    TargetPlaces(policy, log);
    LeadSplits(log.files, log.period);
    var kept, k := Kept(policy, all), Limit(policy, n);
    TextDependsOnContents(Cleaned(policy, all), kept);
    assert log.files[..n][..k][i] == log.files[i];
    assert kept[..k] == log.files[..n][..k];
    EndsAhead(kept, log.files[..n][..k], i);
  }

  lemma EndsAhead(kept: seq<Rolled>, ahead: seq<Rolled>, i: nat)
    requires i < |ahead| <= |kept| && kept[..|ahead|] == ahead && ahead[i].content != []
    ensures Text(ahead) != [] && IsSuffix(Text(ahead), Text(kept))
  {
    TextSplits(kept, |ahead|);
    NoText(ahead);
  }

  lemma RollKeepsTheTail(policy: Policy, log: Log, now: int)
    requires Sound(policy, log)
    ensures IsSuffix(Contents(Roll(policy, log, now)), Contents(log))
    ensures policy.maxRetained.None? ==> Contents(Roll(policy, log, now)) == Contents(log)
  {
    NothingAheadWhenSound(policy, log);
    HarmlessRoll(policy, log, now);
  }

  /** A roll leaves the log sound exactly when it does not move the period back (or keeps no file to tell). */
  lemma RollKeepsSoundness(policy: Policy, log: Log, now: int)
    requires Sound(policy, log)
    ensures Sound(policy, Roll(policy, log, now)) <==>
              (log.period <= PeriodStart(policy.granularity, now) || policy.maxRetained == Some(0))
  {
    var f := Target(policy.granularity, log);
    TargetIsNewest(policy, log);
    CleaningKeepsTheNewest(policy, [f] + log.files);
    RetentionIsExact(policy, [f] + log.files);
    PeriodsAreNamed(policy.granularity, now, now);
    assert policy.maxRetained != Some(0) ==> Roll(policy, log, now).files[0].period == log.period;
  }

  // ------------------------------------------------------------------- whole runs

  lemma SuffixGrows(a: seq<Byte>, b: seq<Byte>, more: seq<Byte>)
    requires IsSuffix(a, b)
    ensures IsSuffix(a + more, b + more)
  {
  }

  lemma SuffixOfSuffix(a: seq<Byte>, b: seq<Byte>, c: seq<Byte>)
    requires IsSuffix(a, b) && IsSuffix(b, c)
    ensures IsSuffix(a, c)
  {
  }

  lemma TurnKeepsTheTail(policy: Policy, log: Log, now: int)
    requires Sound(policy, log)
    ensures Sound(policy, Turned(policy, log, now)) && IsSuffix(Contents(Turned(policy, log, now)), Contents(log))
    ensures policy.maxRetained.None? ==> Contents(Turned(policy, log, now)) == Contents(log)
    ensures log.period <= PeriodStart(policy.granularity, now) ==>
              Turned(policy, log, now).period == PeriodStart(policy.granularity, now)
  {
    if PeriodStart(policy.granularity, now) > log.period {
      RollKeepsTheTail(policy, log, now);
      RollKeepsSoundness(policy, log, now);
    }
  }

  /** The log just after a write's bytes went out, before it is rolled for its size. */
  function Appended(log: Log, bytes: seq<Byte>): (after: Log)
  {
    log.(active := log.active + bytes)
  }

  lemma AppendKeepsTheTail(policy: Policy, log: Log, bytes: seq<Byte>)
    ensures Contents(Appended(log, bytes)) == Contents(log) + bytes
    ensures Sound(policy, log) ==> Sound(policy, Appended(log, bytes))
  {
  }

  /** The clock is not behind the period, or the write rolls nothing. */
  predicate InStep(policy: Policy, log: Log, bytes: seq<Byte>, now: int)
  {
    log.period <= PeriodStart(policy.granularity, now) || bytes == [] || !IsFull(policy, |log.active| + |bytes|)
  }

  /** One write: nothing is lost but to retention, a full file is rolled, and the log stays in order if and only if
        the write does not roll with a clock behind the period (or no file is kept). */
  lemma WriteKeepsTheTail(policy: Policy, log: Log, bytes: seq<Byte>, now: int)
    requires Sound(policy, log)
    ensures var after := Write(policy, log, bytes, now);
            && Tail(policy, Contents(after), Contents(log) + bytes)
            && (Sound(policy, after) <==> InStep(policy, log, bytes, now) || policy.maxRetained == Some(0))
            && (bytes != [] && IsFull(policy, |after.active|) ==> after.active == [])
            && (log.period <= PeriodStart(policy.granularity, now) ==>
                after.period == PeriodStart(policy.granularity, now))
  {
    var turned := Turned(policy, log, now);
    var written := Appended(turned, bytes);
    TurnKeepsTheTail(policy, log, now);
    AppendKeepsTheTail(policy, turned, bytes);
    SuffixGrows(Contents(turned), Contents(log), bytes);
    if bytes != [] && IsFull(policy, |written.active|) {
      RollKeepsTheTail(policy, written, now);
      RollKeepsSoundness(policy, written, now);
      SuffixOfSuffix(Contents(Roll(policy, written, now)), Contents(written), Contents(log) + bytes);
    }
  }

  datatype Event = Event(bytes: seq<Byte>, now: int)

  function Run(policy: Policy, log: Log, events: seq<Event>): (after: Log)
  {
    if events == [] then log
    else
      var e := events[|events| - 1];
      Write(policy, Run(policy, log, events[..|events| - 1]), e.bytes, e.now)
  }

  function Bytes(events: seq<Event>): (bytes: seq<Byte>)
  {
    if events == [] then [] else Bytes(events[..|events| - 1]) + events[|events| - 1].bytes
  }

  /** The clock never goes back, from `clock` on. */
  ghost predicate Clocked(clock: int, events: seq<Event>)
  {
    && (forall i :: 0 <= i < |events| ==> clock <= events[i].now)
    && (forall i, j :: 0 <= i < j < |events| ==> events[i].now <= events[j].now)
  }

  function Clock(clock: int, events: seq<Event>): (now: int)
  {
    if events == [] then clock else events[|events| - 1].now
  }

  lemma TailExtends(policy: Policy, a: seq<Byte>, b: seq<Byte>, all: seq<Byte>, more: seq<Byte>)
    requires Tail(policy, b, all) && Tail(policy, a, b + more)
    ensures Tail(policy, a, all + more)
  {
    SuffixGrows(b, all, more);
    SuffixOfSuffix(a, b + more, all + more);
  }

  /** No write of a run rolls with a clock behind the period. */
  ghost predicate StaysInStep(policy: Policy, log: Log, events: seq<Event>)
  {
    events == [] ||
    var before, e := events[..|events| - 1], events[|events| - 1];
    StaysInStep(policy, log, before) && InStep(policy, Run(policy, log, before), e.bytes, e.now)
  }

  /** A sound log that holds the tail of `all`. */
  ghost predicate Holds(policy: Policy, log: Log, all: seq<Byte>)
  {
    Sound(policy, log) && Tail(policy, Contents(log), all)
  }

  /** Nothing is lost or reordered by rolling; only retention drops bytes, and only the oldest. */
  lemma {:induction false} RollingKeepsTheTail(policy: Policy, log: Log, events: seq<Event>)
    requires Sound(policy, log) && StaysInStep(policy, log, events)
    ensures Holds(policy, Run(policy, log, events), Contents(log) + Bytes(events))
  {
    if events == [] {
      assert Contents(log) + Bytes(events) == Contents(log);
    } else {
      var before, e := events[..|events| - 1], events[|events| - 1];
      RollingKeepsTheTail(policy, log, before);
      assert Contents(log) + Bytes(events) == Contents(log) + Bytes(before) + e.bytes;
      OneMoreWrite(policy, Contents(log) + Bytes(before), Contents(log) + Bytes(events), e, Run(policy, log, before));
    }
  }

  lemma OneMoreWrite(policy: Policy, all: seq<Byte>, all': seq<Byte>, e: Event, log: Log)
    requires Holds(policy, log, all) && InStep(policy, log, e.bytes, e.now) && all' == all + e.bytes
    ensures Holds(policy, Write(policy, log, e.bytes, e.now), all')
  {
    WriteKeepsTheTail(policy, log, e.bytes, e.now);
    TailExtends(policy, Contents(Write(policy, log, e.bytes, e.now)), Contents(log), all, e.bytes);
  }

  /** Sound after the run and after each of its beginnings. */
  ghost predicate AlwaysSound(policy: Policy, log: Log, events: seq<Event>)
  {
    Sound(policy, Run(policy, log, events)) && (events != [] ==> AlwaysSound(policy, log, events[..|events| - 1]))
  }

  /** Exactly those runs keep the log in order throughout, where files are kept at all. */
  lemma {:induction false} InOrderExactlyWhenInStep(policy: Policy, log: Log, events: seq<Event>)
    requires Sound(policy, log) && policy.maxRetained != Some(0)
    ensures AlwaysSound(policy, log, events) <==> StaysInStep(policy, log, events)
  {
    if events != [] {
      var before, e := events[..|events| - 1], events[|events| - 1];
      InOrderExactlyWhenInStep(policy, log, before);
      if AlwaysSound(policy, log, before) {
        WriteKeepsTheTail(policy, Run(policy, log, before), e.bytes, e.now);
      }
    }
  }

  /** A clock that never goes back keeps a run in step. */
  lemma {:induction false} ForwardClocksStayInStep(policy: Policy, log: Log, clock: int, events: seq<Event>)
    requires Sound(policy, log) && log.period == PeriodStart(policy.granularity, clock) && Clocked(clock, events)
    ensures StaysInStep(policy, log, events)
    ensures var after := Run(policy, log, events);
            Sound(policy, after) && after.period == PeriodStart(policy.granularity, Clock(clock, events))
  {
    if events != [] {
      var before, e := events[..|events| - 1], events[|events| - 1];
      ForwardClocksStayInStep(policy, log, clock, before);
      PeriodsAreNamed(policy.granularity, Clock(clock, before), e.now);
      WriteKeepsTheTail(policy, Run(policy, log, before), e.bytes, e.now);
    }
  }

  // ------------------------------------------ when the tail survives whatever comes

  lemma HarmlessWrite(policy: Policy, log: Log, bytes: seq<Byte>, now: int)
    requires Listed(policy, log) && Harmless(policy, log) && log.period <= PeriodStart(policy.granularity, now)
    ensures var after := Write(policy, log, bytes, now);
            && Tail(policy, Contents(after), Contents(log) + bytes) && Listed(policy, after) && Harmless(policy, after)
            && after.period == PeriodStart(policy.granularity, now)
  {
    var turned := Turned(policy, log, now);
    if turned != log {
      HarmlessRoll(policy, log, now);
    }
    AppendKeepsTheTail(policy, turned, bytes);
    SuffixGrows(Contents(turned), Contents(log), bytes);
    var written := Appended(turned, bytes);
    if bytes != [] && IsFull(policy, |written.active|) {
      HarmlessRoll(policy, written, now);
      SuffixOfSuffix(Contents(Roll(policy, written, now)), Contents(written), Contents(log) + bytes);
    }
  }

  /** A harmless log of the clock's period, which holds the tail of `all`. */
  ghost predicate Keeps(policy: Policy, log: Log, clock: int, all: seq<Byte>)
  {
    && Listed(policy, log) && Harmless(policy, log) && log.period == PeriodStart(policy.granularity, clock)
    && Tail(policy, Contents(log), all)
  }

  lemma ClockedBefore(clock: int, events: seq<Event>)
    requires events != [] && Clocked(clock, events)
    ensures var before := events[..|events| - 1];
            Clocked(clock, before) && Clock(clock, before) <= Clock(clock, events)
  {
  }

  lemma BytesSoFar(all: seq<Byte>, events: seq<Event>)
    requires events != []
    ensures all + Bytes(events) == (all + Bytes(events[..|events| - 1])) + events[|events| - 1].bytes
  {
    Associates(all, Bytes(events[..|events| - 1]), events[|events| - 1].bytes);
  }

  lemma Associates(a: seq<Byte>, b: seq<Byte>, c: seq<Byte>)
    ensures a + (b + c) == (a + b) + c
  {
  }

  lemma {:induction false} HarmlessRunsKeepTheTail(policy: Policy, log: Log, clock: int, events: seq<Event>)
    requires Keeps(policy, log, clock, Contents(log)) && Clocked(clock, events)
    ensures Keeps(policy, Run(policy, log, events), Clock(clock, events), Contents(log) + Bytes(events))
  {
    if events == [] {
      assert Contents(log) + Bytes(events) == Contents(log);
    } else {
      var before, e := events[..|events| - 1], events[|events| - 1];
      ClockedBefore(clock, events);
      HarmlessRunsKeepTheTail(policy, log, clock, before);
      BytesSoFar(Contents(log), events);
      OneMoreHarmless(policy, Run(policy, log, before), Clock(clock, before), Contents(log) + Bytes(before), e,
                      Contents(log) + Bytes(events));
    }
  }

  lemma OneMoreHarmless(policy: Policy, log: Log, clock: int, all: seq<Byte>, e: Event, all': seq<Byte>)
    requires Keeps(policy, log, clock, all) && clock <= e.now && all' == all + e.bytes
    ensures Keeps(policy, Write(policy, log, e.bytes, e.now), e.now, all')
  {
    PeriodsAreNamed(policy.granularity, clock, e.now);
    HarmlessWrite(policy, log, e.bytes, e.now);
    TailExtends(policy, Contents(Write(policy, log, e.bytes, e.now)), Contents(log), all, e.bytes);
  }

  /** No write rolls anything. */
  predicate NeverRolls(policy: Policy)
  {
    policy.granularity == Never && policy.maxFileSize == None
  }

  lemma {:induction false} UnrolledRunsKeepAll(policy: Policy, log: Log, events: seq<Event>)
    requires NeverRolls(policy) && log.period == 0
    ensures var after := Run(policy, log, events); Contents(after) == Contents(log) + Bytes(events) && after.period == 0
  {
    if events == [] {
      assert Contents(log) + Bytes(events) == Contents(log);
    } else {
      UnrolledRunsKeepAll(policy, log, events[..|events| - 1]);
      var last, e := Run(policy, log, events[..|events| - 1]), events[|events| - 1];
      AppendKeepsTheTail(policy, last, e.bytes);
      BytesSoFar(Contents(log), events);
    }
  }

  /** Bytes that end with `b`, after which the file is rolled for its size, if it ever is. */
  function Filling(policy: Policy, b: Byte): (bytes: seq<Byte>)
    ensures bytes != [] && bytes[|bytes| - 1] == b
  {
    seq(if policy.maxFileSize.Some? then policy.maxFileSize.value + 1 else 1, _ => b)
  }

  /** At most two further writes that leave some other byte last than the one written last. */
  function Telling(policy: Policy, clock: int, b: Byte): (events: seq<Event>)
  {
    [Event(Filling(policy, b), clock)] +
        (if policy.maxFileSize.Some? then [] else [Event([], clock + Unit(policy.granularity))])
  }

  lemma TellingRun(policy: Policy, log: Log, clock: int, b: Byte)
    requires log.period == PeriodStart(policy.granularity, clock) && !NeverRolls(policy)
    ensures var events := Telling(policy, clock, b);
            && Clocked(clock, events) && Bytes(events) == Filling(policy, b)
            && exists now :: Run(policy, log, events) == Roll(policy, Appended(log, Filling(policy, b)), now)
  {
    var bytes := Filling(policy, b);
    var first := Event(bytes, clock);
    OneEvent(policy, log, first);
    assert Turned(policy, log, clock) == log;
    if policy.maxFileSize.Some? {
      assert Telling(policy, clock, b) == [first];
      assert Run(policy, log, [first]) == Roll(policy, Appended(log, bytes), clock);
    } else {
      var later := clock + Unit(policy.granularity);
      var second := Event([], later);
      TwoEvents(policy, log, first, second);
      NextPeriod(policy.granularity, clock);
      var written := Appended(log, bytes);
      var rolled := Roll(policy, written, later);
      assert Appended(rolled, []) == rolled;
      assert Run(policy, log, [first, second]) == rolled;
    }
  }

  lemma OneEvent(policy: Policy, log: Log, e: Event)
    ensures Run(policy, log, [e]) == Write(policy, log, e.bytes, e.now) && Bytes([e]) == e.bytes
  {
    assert [e][..0] == [];
    assert Bytes([]) + e.bytes == e.bytes;
  }

  lemma TwoEvents(policy: Policy, log: Log, d: Event, e: Event)
    ensures Run(policy, log, [d, e]) == Write(policy, Write(policy, log, d.bytes, d.now), e.bytes, e.now)
    ensures Bytes([d, e]) == d.bytes + e.bytes
  {
    OneEvent(policy, log, d);
    assert [d, e][..1] == [d];
  }

  lemma NextPeriod(g: Granularity, clock: int)
    requires g != Never
    ensures PeriodStart(g, clock + Unit(g)) > PeriodStart(g, clock)
  {
    NextUnit(clock, Unit(g));
  }

  lemma NextUnit(t: int, u: nat)
    requires u > 0
    ensures t + u - (t + u) % u > t - t % u
  {
  }

  /** A byte other than `b`. */
  function Other(b: Byte): (r: Byte)
    ensures r != b
  {
    if b == 0 then 1 else 0
  }

  lemma LastTells(end: seq<Byte>, kept: seq<Byte>, all: seq<Byte>)
    requires end != [] && all != [] && IsSuffix(end, kept) && end[|end| - 1] != all[|all| - 1]
    ensures !IsSuffix(kept, all)
  {
    assert kept[|kept| - 1] == end[|end| - 1];
  }

  /** With bytes filed under a later period, some further writes on a clock that does not go back lose the tail,
        whatever was written before. */
  lemma HarmfulRunsLoseTheTail(policy: Policy, log: Log, clock: int, all: seq<Byte>) returns (events: seq<Event>)
    requires Listed(policy, log) && log.period == PeriodStart(policy.granularity, clock)
    requires !Harmless(policy, log) && !NeverRolls(policy)
    ensures Clocked(clock, events) && !IsSuffix(Contents(Run(policy, log, events)), all + Bytes(events))
  {
    var i :| 0 <= i < Limit(policy, |log.files|) && log.files[i].period > log.period && log.files[i].content != [];
    var n := Lead(log.files, log.period);
    var ahead := Text(log.files[..n][..Limit(policy, n)]);
    HarmfulRoll(policy, log, clock, i);
    var b := Other(ahead[|ahead| - 1]);
    events := Telling(policy, clock, b);
    TellingRun(policy, log, clock, b);
    var now :| Run(policy, log, events) == Roll(policy, Appended(log, Filling(policy, b)), now);
    HarmfulRoll(policy, Appended(log, Filling(policy, b)), now, i);
    LastTells(ahead, Contents(Run(policy, log, events)), all + Bytes(events));
  }

  /** The tail survives every further run on a clock that does not go back if and only if no file of a later period
        that would be kept holds a byte, or nothing is ever rolled. */
  lemma TheTailIsSafeExactlyWhenHarmless(policy: Policy, log: Log, clock: int)
    requires Listed(policy, log) && log.period == PeriodStart(policy.granularity, clock)
    ensures (forall events :: Clocked(clock, events) ==>
               Tail(policy, Contents(Run(policy, log, events)), Contents(log) + Bytes(events)))
            <==> Harmless(policy, log) || NeverRolls(policy)
  {
    if NeverRolls(policy) {
      forall events | Clocked(clock, events)
        ensures Tail(policy, Contents(Run(policy, log, events)), Contents(log) + Bytes(events))
      {
        UnrolledRunsKeepAll(policy, log, events);
      }
    } else if Harmless(policy, log) {
      forall events | Clocked(clock, events)
        ensures Tail(policy, Contents(Run(policy, log, events)), Contents(log) + Bytes(events))
      {
        HarmlessRunsKeepTheTail(policy, log, clock, events);
      }
    } else {
      var events := HarmfulRunsLoseTheTail(policy, log, clock, Contents(log));
    }
  }

  lemma RolledBehindIsHarmful(policy: Policy, log: Log, now: int)
    requires Sound(policy, log) && log.period > PeriodStart(policy.granularity, now) && log.active != []
    requires policy.maxRetained != Some(0)
    ensures Listed(policy, Roll(policy, log, now)) && !Harmless(policy, Roll(policy, log, now))
  {
    var f, after := Target(policy.granularity, log), Roll(policy, log, now);
    NothingAheadWhenSound(policy, log);
    HarmlessRoll(policy, log, now);
    TargetIsNewest(policy, log);
    RetentionIsExact(policy, [f] + log.files);
    assert after.files[0].content == log.active && after.files[0].period == log.period;
  }

  /** So a write that rolls with a clock behind the period loses it: some further writes at its clock or later do. */
  lemma AnOutOfStepWriteLosesTheTail(policy: Policy, log: Log, bytes: seq<Byte>, now: int)
    returns (events: seq<Event>)
    requires Sound(policy, log) && !InStep(policy, log, bytes, now) && policy.maxRetained != Some(0)
    ensures Clocked(now, events)
    ensures var after := Run(policy, Write(policy, log, bytes, now), events);
            !IsSuffix(Contents(after), Contents(log) + bytes + Bytes(events))
  {
    var written := Appended(log, bytes);
    assert Turned(policy, log, now) == log && Write(policy, log, bytes, now) == Roll(policy, written, now);
    RolledBehindIsHarmful(policy, written, now);
    events := HarmfulRunsLoseTheTail(policy, Roll(policy, written, now), now, Contents(log) + bytes);
  }

  /** Writing one byte with a limit of one byte, no roll for the period being due. */
  lemma WriteOne(policy: Policy, log: Log, b: Byte, now: int)
    requires policy.maxFileSize == Some(1) && log.active == [] && PeriodStart(policy.granularity, now) <= log.period
    ensures Write(policy, log, [b], now) == Roll(policy, log.(active := [b]), now)
  {
    assert [] + [b] == [b];
  }

  /** A clock that goes back loses the newest bytes: the third write is filed before the first two, and dropped. */
  lemma ABackwardClockDropsTheNewestBytes()
    ensures var policy := Policy(Daily, Some(1), Some(2), None);
            var log := Log([], [], DAY);
            var events := [Event([1], DAY), Event([2], 0), Event([3], 0)];
            && Sound(policy, log) && log.period == PeriodStart(Daily, DAY)
            && Contents(Run(policy, log, events)) == [1, 2] && Contents(log) + Bytes(events) == [1, 2, 3]
            && !IsSuffix(Contents(Run(policy, log, events)), Contents(log) + Bytes(events))
  {
    var policy := Policy(Daily, Some(1), Some(2), None);
    var log := Log([], [], DAY);
    var e1, e2, e3 := Event([1], DAY), Event([2], 0), Event([3], 0);
    ThreeWrites(policy, log, e1, e2, e3);
    NotTheTail([1, 2], [1, 2, 3]);
  }

  lemma ThreeWrites(policy: Policy, log: Log, e1: Event, e2: Event, e3: Event)
    requires policy == Policy(Daily, Some(1), Some(2), None) && log == Log([], [], DAY)
    requires e1 == Event([1], DAY) && e2 == Event([2], 0) && e3 == Event([3], 0)
    ensures PeriodStart(Daily, DAY) == DAY && Contents(Run(policy, log, [e1, e2, e3])) == [1, 2]
    ensures Contents(log) + Bytes([e1, e2, e3]) == [1, 2, 3]
  {
    var f1, f2 := Rolled(DAY, 1, [1], false, true), Rolled(DAY, 2, [2], false, true);
    FirstIsFiled(policy, log, f1);
    SecondIsFiled(policy, f1, f2);
    ThirdIsDropped(policy, f1, f2, Rolled(0, 1, [3], false, true));
    RunOfThree(policy, log, e1, e2, e3);
    TextOfTwo(f2, f1);
    assert Contents(log) == [];
  }

  lemma NotTheTail(a: seq<Byte>, b: seq<Byte>)
    requires |a| == 2 && |b| == 3 && a[0] != b[1]
    ensures !IsSuffix(a, b)
  {
    assert b[1..][0] == b[1];
  }

  lemma TextOfTwo(f: Rolled, g: Rolled)
    ensures Text([f, g]) == g.content + f.content
  {
    assert [f, g][1..] == [g] && [g][1..] == [];
    assert Text([g]) == g.content;
  }

  lemma FirstIsFiled(policy: Policy, log: Log, f1: Rolled)
    requires policy == Policy(Daily, Some(1), Some(2), None)
    requires log == Log([], [], DAY) && f1 == Rolled(DAY, 1, [1], false, true)
    ensures PeriodStart(Daily, DAY) == DAY && Write(policy, log, [1], DAY) == Log([f1], [], DAY)
  {
    WriteOne(policy, log, 1, DAY);
    assert LastSequence(Daily, [], DAY) == 0;
    assert Insert([], f1) == [f1];
  }

  lemma SecondIsFiled(policy: Policy, f1: Rolled, f2: Rolled)
    requires policy == Policy(Daily, Some(1), Some(2), None)
    requires f1 == Rolled(DAY, 1, [1], false, true) && f2 == Rolled(DAY, 2, [2], false, true)
    ensures Write(policy, Log([f1], [], DAY), [2], 0) == Log([f2, f1], [], 0)
  {
    WriteOne(policy, Log([f1], [], DAY), 2, 0);
    assert [f1][1..] == [];
    assert LastSequence(Daily, [], DAY) == 0;
    assert LastSequence(Daily, [f1], DAY) == 1;
    assert Insert([f1], f2) == [f2, f1];
  }

  lemma RunOfThree(policy: Policy, log: Log, e1: Event, e2: Event, e3: Event)
    ensures Run(policy, log, [e1, e2, e3]) ==
            Write(policy, Write(policy, Write(policy, log, e1.bytes, e1.now), e2.bytes, e2.now), e3.bytes, e3.now)
    ensures Bytes([e1, e2, e3]) == e1.bytes + e2.bytes + e3.bytes
  {
    assert [e1, e2, e3][..2] == [e1, e2] && [e1, e2][..1] == [e1] && [e1][..0] == [];
    assert Run(policy, log, [e1]) == Write(policy, log, e1.bytes, e1.now) && Bytes([e1]) == e1.bytes;
  }

  lemma ThirdIsDropped(policy: Policy, f1: Rolled, f2: Rolled, f3: Rolled)
    requires policy == Policy(Daily, Some(1), Some(2), None)
    requires f1.period == f2.period == DAY && f3 == Rolled(0, 1, [3], false, true)
    ensures Write(policy, Log([f2, f1], [], 0), [3], 0) == Log([f2, f1], [], 0)
  {
    WriteOne(policy, Log([f2, f1], [], 0), 3, 0);
    assert [f2, f1][1..] == [f1] && [f1][1..] == [];
    assert LastSequence(Daily, [], 0) == 0;
    assert LastSequence(Daily, [f1], 0) == 0;
    assert Insert([f1], f3) == [f1, f3];
    assert Insert([f2, f1], f3) == [f2, f1, f3];
    assert [f2, f1, f3][..2] == [f2, f1];
  }
}
