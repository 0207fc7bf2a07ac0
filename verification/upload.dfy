/** The simulated file upload. Starting a simulation puts two fixed files in the
    list, both uploading from 0%. While any file is uploading an interval timer
    fires; each firing is one `Tick`, which adds 10 to every uploading file and
    marks it ready at exactly 100 once it reaches 100. The submit button is
    enabled only when the list is non-empty and every file is ready. */
module Upload {
  import opened Common

  datatype FileStatus = Uploading | Ready

  /** `MockFile`. */
  datatype MockFile = MockFile(id: string, name: string, size: string, status: FileStatus, progress: int)

  /** One file under one firing of the interval. */
  function TickFile(f: MockFile): MockFile {
    if f.status == Uploading then
      if f.progress + 10 >= 100 then f.(status := Ready, progress := 100)
      else f.(progress := f.progress + 10)
    else f
  }

  /** One firing of the interval: `prev.map(...)` over the whole list. */
  function Tick(files: seq<MockFile>): (r: seq<MockFile>)
    ensures |r| == |files|
    ensures forall i :: 0 <= i < |files| ==> r[i] == TickFile(files[i])
  {
    if files == [] then [] else [TickFile(files[0])] + Tick(files[1..])
  }

  /** `mockFiles.some(f => f.status === 'uploading')`: the interval is scheduled. */
  predicate AnyUploading(files: seq<MockFile>) {
    exists i :: 0 <= i < |files| && files[i].status == Uploading
  }

  /** What one interval period does: a tick when the interval is scheduled, nothing otherwise. */
  function Step(files: seq<MockFile>): seq<MockFile> {
    if AnyUploading(files) then Tick(files) else files
  }

  /** `k` interval periods. */
  function Steps(files: seq<MockFile>, k: nat): seq<MockFile>
    decreases k
  {
    if k == 0 then files else Steps(Step(files), k - 1)
  }

  /** `k` firings of one file. */
  function TickFileN(f: MockFile, k: nat): MockFile
    decreases k
  {
    if k == 0 then f else TickFileN(TickFile(f), k - 1)
  }

  /** `startSimulation`. */
  function StartSimulation(): seq<MockFile> {
    [ MockFile("1", "Dynamic_BPD_Confidential.pdf", "945 KB", Uploading, 0),
      MockFile("2", "Conditions_File.pdf", "12 MB", Uploading, 0) ]
  }

  /** `removeFile(id)`. */
  function RemoveFile(files: seq<MockFile>, id: string): seq<MockFile> {
    Filter(files, (f: MockFile) => f.id != id)
  }

  /** `allReady`, which also enables the submit button. */
  predicate AllReady(files: seq<MockFile>) {
    |files| > 0 && forall i :: 0 <= i < |files| ==> files[i].status == Ready
  }

  /** Progress lies in 0..100: an uploading file is below 100 and a ready file is at 100. */
  predicate InRange(f: MockFile) {
    0 <= f.progress && (f.status == Uploading ==> f.progress < 100) && (f.status == Ready ==> f.progress == 100)
  }

  /** A tick adds 10 to an uploading file and turns it ready at exactly 100 once it
      would reach 100; a ready file is untouched; the file keeps its id, name and
      size; and a file in range stays in range. */
  lemma TickFileEffect(f: MockFile)
    ensures f.status == Uploading && f.progress + 10 >= 100 ==> TickFile(f).status == Ready && TickFile(f).progress == 100
    ensures f.status == Uploading && f.progress + 10 < 100 ==> TickFile(f).status == Uploading && TickFile(f).progress == f.progress + 10
    ensures f.status == Ready ==> TickFile(f) == f
    ensures TickFile(f).(status := f.status, progress := f.progress) == f
    ensures InRange(f) ==> InRange(TickFile(f))
  {
  }

  /** Every file `startSimulation` creates starts in range, uploading from 0. */
  lemma StartSimulationInRange()
    ensures forall i :: 0 <= i < |StartSimulation()| ==>
      StartSimulation()[i].status == Uploading && StartSimulation()[i].progress == 0 && InRange(StartSimulation()[i])
    ensures |StartSimulation()| == 2
  {
  }

  /** An uploading file at progress `p >= 0` is still uploading, at `p + 10k`, for as
      long as that is below 100. */
  lemma {:induction false} StillUploading(f: MockFile, k: nat)
    requires f.status == Uploading && f.progress + 10 * k < 100
    ensures TickFileN(f, k) == f.(progress := f.progress + 10 * k)
    decreases k
  {
    if k > 0 {
      StillUploading(TickFile(f), k - 1);
    }
  }

  /** A ready file stays as it is. */
  lemma {:induction false} ReadyStays(f: MockFile, k: nat)
    requires f.status == Ready
    ensures TickFileN(f, k) == f
    decreases k
  {
    if k > 0 {
      ReadyStays(f, k - 1);
    }
  }

  /** A file starting to upload at 0 is uploading at 90 after nine ticks and ready
      at exactly 100 after ten, and stays so. */
  lemma ReadyAfterTenTicks(f: MockFile, extra: nat)
    requires f.status == Uploading && f.progress == 0
    ensures TickFileN(f, 9) == f.(progress := 90)
    ensures TickFileN(f, 10 + extra) == f.(status := Ready, progress := 100)
  {
    StillUploading(f, 9);
    TickFileNSplit(f, 9, 1 + extra);
    assert TickFileN(f.(progress := 90), 1 + extra) == TickFileN(f.(status := Ready, progress := 100), extra);
    ReadyStays(f.(status := Ready, progress := 100), extra);
  }

  lemma {:induction false} TickFileNSplit(f: MockFile, m: nat, k: nat)
    ensures TickFileN(f, m + k) == TickFileN(TickFileN(f, m), k)
    decreases m
  {
    if m > 0 {
      TickFileNSplit(TickFile(f), m - 1, k);
    }
  }

  /** A tick of a list whose files are all uploading with room for `k + 1` more
      ticks leaves them all uploading with room for `k` more. */
  lemma TickKeepsUploading(files: seq<MockFile>, k: nat)
    requires forall i :: 0 <= i < |files| ==> files[i].status == Uploading && files[i].progress + 10 * (k + 1) < 100
    ensures forall i :: 0 <= i < |files| ==> Tick(files)[i].status == Uploading && Tick(files)[i].progress + 10 * k < 100
  {
  }

  /** While every file is uploading, each period is a tick, so the list after `k`
      periods is, file by file, each file after `k` ticks. */
  lemma {:induction false} StepsWhileUploading(files: seq<MockFile>, k: nat)
    requires |files| > 0
    requires forall i :: 0 <= i < |files| ==> files[i].status == Uploading && files[i].progress + 10 * (k - 1) < 100
    ensures |Steps(files, k)| == |files|
    ensures forall i :: 0 <= i < |files| ==> Steps(files, k)[i] == TickFileN(files[i], k)
    decreases k
  {
    if k > 0 {
      assert AnyUploading(files) by {
        assert files[0].status == Uploading;
      }
      var next := Tick(files);
      assert Steps(files, k) == Steps(next, k - 1);
      if k > 1 {
        TickKeepsUploading(files, k - 2);
        StepsWhileUploading(next, k - 1);
      }
    }
  }

  /** Files that all start uploading at 0 are all uploading at 90 after nine
      periods and all ready at 100 after ten. */
  lemma StartedAtZeroTicks(files: seq<MockFile>)
    requires |files| > 0
    requires forall i :: 0 <= i < |files| ==> files[i].status == Uploading && files[i].progress == 0
    ensures |Steps(files, 9)| == |files| && |Steps(files, 10)| == |files|
    ensures forall i :: 0 <= i < |files| ==> Steps(files, 9)[i] == files[i].(progress := 90)
    ensures forall i :: 0 <= i < |files| ==> Steps(files, 10)[i] == files[i].(status := Ready, progress := 100)
  {
    StepsWhileUploading(files, 9);
    StepsWhileUploading(files, 10);
    forall i | 0 <= i < |files|
      ensures TickFileN(files[i], 9) == files[i].(progress := 90)
      ensures TickFileN(files[i], 10) == files[i].(status := Ready, progress := 100)
    {
      ReadyAfterTenTicks(files[i], 0);
    }
  }

  /** So the interval still runs after nine periods and stops after ten, when the
      submit button is enabled. */
  lemma StartedAtZeroFinishInTenTicks(files: seq<MockFile>)
    requires |files| > 0
    requires forall i :: 0 <= i < |files| ==> files[i].status == Uploading && files[i].progress == 0
    ensures AnyUploading(Steps(files, 9)) && !AllReady(Steps(files, 9))
    ensures AllReady(Steps(files, 10)) && !AnyUploading(Steps(files, 10))
  {
    StartedAtZeroTicks(files);
    NinthPeriodStillUploading(files, Steps(files, 9));
    TenthPeriodSettled(files, Steps(files, 10));
  }

  lemma NinthPeriodStillUploading(files: seq<MockFile>, s: seq<MockFile>)
    requires |files| > 0 && |s| == |files|
    requires forall i :: 0 <= i < |files| ==> s[i] == files[i].(progress := 90)
    requires files[0].status == Uploading
    ensures AnyUploading(s) && !AllReady(s)
  {
    assert s[0].status == Uploading;
  }

  lemma TenthPeriodSettled(files: seq<MockFile>, s: seq<MockFile>)
    requires |files| > 0 && |s| == |files|
    requires forall i :: 0 <= i < |files| ==> s[i] == files[i].(status := Ready, progress := 100)
    ensures AllReady(s) && !AnyUploading(s)
  {
  }

  /** The simulation `startSimulation` starts finishes after exactly ten periods. */
  lemma StartedUploadFinishesInTenTicks()
    ensures AnyUploading(Steps(StartSimulation(), 9))
    ensures AllReady(Steps(StartSimulation(), 10))
  {
    StartSimulationInRange();
    StartedAtZeroFinishInTenTicks(StartSimulation());
  }

  /** With no file uploading, the interval is not scheduled and nothing changes;
      a tick would not change an all-ready list either. */
  lemma SettledIsFixedPoint(files: seq<MockFile>)
    requires !AnyUploading(files)
    ensures Step(files) == files
    ensures Tick(files) == files
  {
  }

  /** `allReady` holds exactly when the list is non-empty and no file is uploading. */
  lemma AllReadyIff(files: seq<MockFile>)
    ensures AllReady(files) <==> |files| > 0 && !AnyUploading(files)
  {
  }

  /** Removing a file drops exactly the files with that id and keeps the order of
      the others. */
  lemma RemoveFileExact(files: seq<MockFile>, id: string)
    ensures forall f :: f in RemoveFile(files, id) <==> f in files && f.id != id
    ensures IsSubsequence(RemoveFile(files, id), files)
    ensures forall f :: multiset(RemoveFile(files, id))[f] == if f.id != id then multiset(files)[f] else 0
    ensures (forall i :: 0 <= i < |files| ==> files[i].id != id) ==> RemoveFile(files, id) == files
  {
    var keep := (f: MockFile) => f.id != id;
    assert RemoveFile(files, id) == Filter(files, keep);
    FilterCounts(files, keep);
    forall f ensures multiset(RemoveFile(files, id))[f] == if f.id != id then multiset(files)[f] else 0 {
      assert multiset(Filter(files, keep))[f] == if keep(f) then multiset(files)[f] else 0;
    }
    FilterMembership(files, keep);
    FilterIsSubsequence(files, keep);
    if forall i :: 0 <= i < |files| ==> files[i].id != id {
      FilterKeepsAll(files, keep);
    }
  }

  /** One tick of a list whose uploading files have all reached `10 * periods`:
      fewer than ten periods can have passed, and afterwards the uploading files
      have reached `10 * (periods + 1)`, everything stays in range and ids are kept. */
  lemma TickAdvances(files: seq<MockFile>, periods: nat)
    requires AnyUploading(files)
    requires forall i :: 0 <= i < |files| ==> InRange(files[i])
    requires forall i :: 0 <= i < |files| && files[i].status == Uploading ==> files[i].progress >= 10 * periods
    ensures periods < 10
    ensures forall i :: 0 <= i < |files| ==> InRange(Tick(files)[i]) && Tick(files)[i].id == files[i].id
    ensures forall i :: 0 <= i < |files| && Tick(files)[i].status == Uploading ==> Tick(files)[i].progress >= 10 * (periods + 1)
  {
    var w :| 0 <= w < |files| && files[w].status == Uploading;
    assert files[w].progress < 100;
    forall i | 0 <= i < |files|
      ensures InRange(Tick(files)[i]) && Tick(files)[i].id == files[i].id
      ensures Tick(files)[i].status == Uploading ==> Tick(files)[i].progress >= 10 * (periods + 1)
    {
      TickFileEffect(files[i]);
    }
  }

  /** Runs the interval until it stops: from a list whose files are in range, at
      most ten periods pass before no file is uploading; the files keep their ids
      and order, and a non-empty list ends all ready. */
  method SimulateUntilSettled(files: seq<MockFile>) returns (settled: seq<MockFile>, periods: nat)
    requires forall i :: 0 <= i < |files| ==> InRange(files[i])
    ensures settled == Steps(files, periods)
    ensures !AnyUploading(settled) && periods <= 10
    ensures |settled| == |files| && forall i :: 0 <= i < |files| ==> settled[i].id == files[i].id
    ensures forall i :: 0 <= i < |settled| ==> InRange(settled[i])
    ensures files != [] ==> AllReady(settled)
  {
    settled, periods := files, 0;
    while AnyUploading(settled)
      invariant periods <= 10
      invariant Steps(files, periods) == settled
      invariant |settled| == |files| && forall i :: 0 <= i < |files| ==> settled[i].id == files[i].id
      invariant forall i :: 0 <= i < |settled| ==> InRange(settled[i])
      invariant forall i :: 0 <= i < |settled| && settled[i].status == Uploading ==> settled[i].progress >= 10 * periods
      decreases 10 - periods
    {
      TickAdvances(settled, periods);
      StepsAppend(files, periods);
      settled := Tick(settled);
      periods := periods + 1;
    }
    AllReadyIff(settled);
  }

  lemma {:induction false} StepsAppend(files: seq<MockFile>, k: nat)
    ensures Steps(files, k + 1) == Step(Steps(files, k))
    decreases k
  {
    if k > 0 {
      StepsAppend(Step(files), k - 1);
    }
  }
}
