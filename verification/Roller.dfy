/**
 The roller itself, over a directory of rolled files: it refines `Rolling`, so what holds of every
 run there holds of the files on disk.
 */
module Rollers {
  import opened Rolling

  datatype Name = Name(period: int, sequence: nat)

  datatype File = File(content: seq<Byte>, compressed: bool, suffixed: bool)

  function NameOf(f: Rolled): (n: Name)
  {
    Name(f.period, f.sequence)
  }

  function FileOf(f: Rolled): (file: File)
  {
    File(f.content, f.compressed, f.suffixed)
  }

  function Found(n: Name, file: File): (f: Rolled)
    ensures NameOf(f) == n && FileOf(f) == file
  {
    Rolled(n.period, n.sequence, file.content, file.compressed, file.suffixed)
  }

  ghost predicate Held(x: Rolled, dir: map<Name, File>)
  {
    NameOf(x) in dir && dir[NameOf(x)] == FileOf(x)
  }

  ghost predicate Distinct(files: seq<Rolled>)
  {
    forall i, j :: 0 <= i < j < |files| ==> NameOf(files[i]) != NameOf(files[j])
  }

  /** The directory listed newest first. */
  ghost predicate Lists(files: seq<Rolled>, dir: map<Name, File>)
  {
    Descending(files) && forall x :: x in files <==> Held(x, dir)
  }

  // -------------------------------------------------------------- sorting a listing

  lemma {:induction false} InsertKeepsOrder(files: seq<Rolled>, f: Rolled)
    requires Descending(files) && forall i :: 0 <= i < |files| ==> NameOf(files[i]) != NameOf(f)
    ensures Descending(Insert(files, f))
    ensures forall x :: x in Insert(files, f) <==> x in files || x == f
  {
    if files != [] && Newer(files[0], f) {
      var rest := Insert(files[1..], f);
      InsertKeepsOrder(files[1..], f);
      forall j | 0 <= j < |rest|
        ensures Newer(files[0], rest[j])
      {
        assert rest[j] in rest;
      }
      forall x
        ensures x in [files[0]] + rest <==> x in files || x == f
      {
        assert files == [files[0]] + files[1..];
      }
    }
  }

  method Sort(found: seq<Rolled>) returns (files: seq<Rolled>)
    requires Distinct(found)
    ensures Descending(files) && forall x :: x in files <==> x in found
  {
    files := [];
    for k := 0 to |found|
      invariant Descending(files) && forall x :: x in files <==> x in found[..k]
    {
      forall i | 0 <= i < |files|
        ensures NameOf(files[i]) != NameOf(found[k])
      {
        assert files[i] in found[..k];
      }
      InsertKeepsOrder(files, found[k]);
      assert found[..k + 1] == found[..k] + [found[k]];
      files := Insert(files, found[k]);
    }
    assert found[..|found|] == found;
  }

  lemma SameFirst(a: seq<Rolled>, b: seq<Rolled>)
    requires Descending(a) && Descending(b) && a != [] && forall x :: x in a <==> x in b
    ensures b != [] && a[0] == b[0]
  {
    assert a[0] in b;
    var j :| 0 <= j < |b| && b[j] == a[0];
    assert b[0] in a;
    var i :| 0 <= i < |a| && a[i] == b[0];
  }

  lemma RestIsRest(a: seq<Rolled>, x: Rolled)
    requires Descending(a) && a != []
    ensures x in a[1..] <==> x in a && x != a[0]
  {
    assert a == [a[0]] + a[1..];
    if x in a[1..] {
      var j :| 0 <= j < |a[1..]| && a[1..][j] == x;
      assert Newer(a[0], a[j + 1]);
    }
  }

  lemma {:induction false} SameFiles(a: seq<Rolled>, b: seq<Rolled>)
    requires Descending(a) && Descending(b) && forall x :: x in a <==> x in b
    ensures a == b
    decreases |a|
  {
    if a != [] {
      SameFirst(a, b);
    }
    if b != [] {
      SameFirst(b, a);
      forall x
        ensures x in a[1..] <==> x in b[1..]
      {
        RestIsRest(a, x);
        RestIsRest(b, x);
      }
      SameFiles(a[1..], b[1..]);
      assert a == [a[0]] + a[1..] && b == [b[0]] + b[1..];
    }
  }

  /** A directory has one listing. */
  lemma ListingIsUnique(a: seq<Rolled>, b: seq<Rolled>, dir: map<Name, File>)
    requires Lists(a, dir) && Lists(b, dir)
    ensures a == b
  {
    SameFiles(a, b);
  }

  // ------------------------------------------------------------ changing a directory

  lemma AddOne(files: seq<Rolled>, dir: map<Name, File>, f: Rolled, all: seq<Rolled>)
    requires Lists(files, dir) && NameOf(f) !in dir
    requires Descending(all) && forall x :: x in all <==> x in files || x == f
    ensures Lists(all, dir[NameOf(f) := FileOf(f)])
  {
    forall x
      ensures x in all <==> Held(x, dir[NameOf(f) := FileOf(f)])
    {
      assert x in files <==> Held(x, dir);
    }
  }

  /** Sorted files with one taken out. */
  lemma WithoutOne(files: seq<Rolled>, k: nat, x: Rolled)
    requires Descending(files) && k < |files|
    ensures x in files[..k] + files[k + 1..] <==> x in files && x != files[k]
  {
    assert files == files[..k] + [files[k]] + files[k + 1..];
    if x in files[..k] {
      var i :| 0 <= i < k && files[..k][i] == x;
      assert Newer(files[i], files[k]);
    }
    if x in files[k + 1..] {
      var i :| 0 <= i < |files[k + 1..]| && files[k + 1..][i] == x;
      assert Newer(files[k], files[k + 1 + i]);
    }
  }

  lemma SortedWithoutOne(files: seq<Rolled>, k: nat)
    requires Descending(files) && k < |files|
    ensures Descending(files[..k] + files[k + 1..])
  {
  }

  lemma DropOne(files: seq<Rolled>, dir: map<Name, File>, k: nat)
    requires Lists(files, dir) && k < |files|
    ensures Lists(files[..k] + files[k + 1..], dir - {NameOf(files[k])})
  {
    SortedWithoutOne(files, k);
    var f := files[k];
    assert f in files;
    forall x
      ensures x in files[..k] + files[k + 1..] <==> Held(x, dir - {NameOf(f)})
    {
      WithoutOne(files, k, x);
      OnlyOne(x, f, dir);
      assert x in files <==> Held(x, dir);
    }
  }

  /** A file is determined by its name. */
  lemma OnlyOne(x: Rolled, f: Rolled, dir: map<Name, File>)
    requires Held(f, dir)
    ensures Held(x, dir - {NameOf(f)}) <==> Held(x, dir) && x != f
  {
  }

  lemma WithReplaced(files: seq<Rolled>, k: nat, f: Rolled, x: Rolled)
    requires Descending(files) && k < |files|
    ensures x in files[k := f] <==> x == f || (x in files && x != files[k])
  {
    WithoutOne(files, k, x);
    assert files[k := f] == files[..k] + [f] + files[k + 1..];
  }

  lemma ReplaceOne(files: seq<Rolled>, dir: map<Name, File>, k: nat, f: Rolled)
    requires Lists(files, dir) && k < |files| && NameOf(f) == NameOf(files[k])
    ensures Lists(files[k := f], dir[NameOf(f) := FileOf(f)])
  {
    var g, files' := files[k], files[k := f];
    assert g in files;
    forall x
      ensures x in files' <==> Held(x, dir[NameOf(f) := FileOf(f)])
    {
      WithReplaced(files, k, f, x);
      OnlyOne(x, g, dir);
      assert x in files <==> Held(x, dir);
    }
  }

  /** The next free sequence is one past this. */
  method LastUsed(g: Granularity, files: seq<Rolled>, period: int) returns (last: nat)
    ensures last == LastSequence(g, files, period)
  {
    last := 0;
    for i := |files| downto 0
      invariant last == LastSequence(g, files[i..], period)
    {
      assert files[i..][1..] == files[i + 1..];
      if Named(g, files[i].period) == Named(g, period) && files[i].sequence > last {
        last := files[i].sequence;
      }
    }
    assert files[0..] == files;
  }

  class Roller {
    const policy: Policy
    var dir: map<Name, File>
    var active: seq<Byte>
    var currentSize: nat
    var period: int

    /** What the directory and the active file amount to. */
    ghost predicate Shows(log: Log)
      reads this
    {
      Lists(log.files, dir) && log.active == active && log.period == period && currentSize == |active|
    }

    /** Opens what an earlier run left. */
    constructor (policy: Policy, dir: map<Name, File>, active: seq<Byte>, now: int)
      ensures this.policy == policy && this.dir == dir && this.active == active && currentSize == |active|
      ensures period == PeriodStart(policy.granularity, now)
    {
      this.policy, this.dir, this.active, currentSize, period := policy, dir, active, |active|,
          PeriodStart(policy.granularity, now);
    }

    method FindRolledFiles() returns (files: seq<Rolled>)
      ensures Lists(files, dir)
    {
      var found: seq<Rolled> := [];
      var left := dir.Keys;
      while left != {}
        invariant left <= dir.Keys && Distinct(found) && forall x :: x in found <==> Held(x, dir) && NameOf(x) !in left
        decreases |left|
      {
        var n :| n in left;
        FindOneMore(found, dir, left, n);
        found := found + [Found(n, dir[n])];
        left := left - {n};
      }
      files := Sort(found);
    }

    /** Renames the active file; a file already so named would be destroyed. */
    method Rename(f: Rolled)
      requires NameOf(f) !in dir && f.content == active
      modifies this`dir, this`active, this`currentSize
      ensures dir == old(dir)[NameOf(f) := FileOf(f)] && active == [] && currentSize == 0
    {
      dir := dir[NameOf(f) := FileOf(f)];
      active, currentSize := [], 0;
    }

    method Roll(now: int, ghost log: Log)
      requires Shows(log)
      modifies this
      ensures Shows(Rolling.Roll(policy, log, now))
    {
      var files := FindRolledFiles();
      ListingIsUnique(files, log.files, dir);
      var last := LastUsed(policy.granularity, files, period);
      var f := Rolled(Named(policy.granularity, period), last + 1, active, false, true);
      UnusedName(policy.granularity, log, dir);
      ghost var was := dir;
      Rename(f);
      period := PeriodStart(policy.granularity, now);
      var all := SortedIn(files, f, was);
      Cleanup(all);
    }

    /** Deletes the files beyond the retention limit, then compresses those beyond the uncompressed ones. */
    method Cleanup(files: seq<Rolled>)
      requires Lists(files, dir)
      modifies this`dir
      ensures Lists(Cleaned(policy, files), dir)
    {
      var kept := files;
      if policy.maxRetained.Some? && policy.maxRetained.value < |files| {
        var max := policy.maxRetained.value;
        assert files[..max] + files[max..] == files;
        for i := max to |files|
          invariant Lists(files[..max] + files[i..], dir)
        {
          ghost var rest := files[..max] + files[i..];
          DropOne(rest, dir, max);
          assert rest[..max] + rest[max + 1..] == files[..max] + files[i + 1..];
          dir := dir - {NameOf(files[i])};
        }
        kept := files[..max];
        assert files[..max] + files[|files|..] == kept;
      }
      if policy.maxUncompressed.Some? {
        CompressFrom(kept, policy.maxUncompressed.value);
      }
    }

    method CompressFrom(files: seq<Rolled>, from: nat)
      requires Lists(files, dir)
      modifies this`dir
      ensures Lists(Compressed(files, from), dir)
    {
      ghost var done := files;
      var i := from;
      while i < |files|
        invariant i >= from && |done| == |files| && Lists(done, dir)
        invariant forall j :: 0 <= j < |files| ==> done[j] == if from <= j < i then Squeezed(files[j]) else files[j]
      {
        if !files[i].compressed && files[i].suffixed {
          var n := NameOf(files[i]);
          assert done[i] in done;
          ReplaceOne(done, dir, i, Squeezed(files[i]));
          done := done[i := Squeezed(files[i])];
          dir := dir[n := dir[n].(compressed := true)];
        }
        i := i + 1;
      }
      assert done == Compressed(files, from);
    }

    /** Of `bytes`, what the writer takes (`taken` bytes) is written. */
    method WriteInternal(bytes: seq<Byte>, taken: nat, now: int, ghost log: Log) returns (n: nat)
      requires Shows(log) && taken <= |bytes|
      modifies this
      ensures n == taken && Shows(Write(policy, log, bytes[..taken], now))
    {
      ghost var at := Turned(policy, log, now);
      if PeriodStart(policy.granularity, now) > period {
        Roll(now, log);
      }
      active := active + bytes[..taken];
      at := Appended(at, bytes[..taken]);
      n := taken;
      if n > 0 {
        currentSize := currentSize + n;
        if policy.maxFileSize.Some? && currentSize >= policy.maxFileSize.value {
          Roll(now, at);
        }
      }
    }
  }

  lemma FindOneMore(found: seq<Rolled>, dir: map<Name, File>, left: set<Name>, n: Name)
    requires Distinct(found) && n in left && n in dir
    requires forall x :: x in found <==> Held(x, dir) && NameOf(x) !in left
    ensures Distinct(found + [Found(n, dir[n])])
    ensures forall x :: x in found + [Found(n, dir[n])] <==> Held(x, dir) && NameOf(x) !in left - {n}
  {
    forall i | 0 <= i < |found|
      ensures NameOf(found[i]) != n
    {
      assert found[i] in found;
    }
    forall x
      ensures x in found + [Found(n, dir[n])] <==> Held(x, dir) && NameOf(x) !in left - {n}
    {
      assert x in found <==> Held(x, dir) && NameOf(x) !in left;
      assert Held(x, dir) && NameOf(x) == n <==> x == Found(n, dir[n]);
    }
  }

  lemma UnusedName(g: Granularity, log: Log, dir: map<Name, File>)
    requires Lists(log.files, dir)
    ensures NameOf(Target(g, log)) !in dir
  {
    var n := NameOf(Target(g, log));
    if n in dir {
      assert Held(Found(n, dir[n]), dir);
      var i :| 0 <= i < |log.files| && log.files[i] == Found(n, dir[n]);
      TargetIsUnused(g, log, i);
    }
  }

  /** Sorting the listing with the new file in it puts the file in its place. */
  method SortedIn(files: seq<Rolled>, f: Rolled, ghost dir: map<Name, File>) returns (all: seq<Rolled>)
    requires Lists(files, dir) && NameOf(f) !in dir
    ensures all == Insert(files, f) && Lists(all, dir[NameOf(f) := FileOf(f)])
  {
    forall i | 0 <= i < |files|
      ensures NameOf(files[i]) != NameOf(f)
    {
      assert files[i] in files;
    }
    all := Sort(files + [f]);
    InsertKeepsOrder(files, f);
    SameFiles(all, Insert(files, f));
    AddOne(files, dir, f, all);
  }
}
