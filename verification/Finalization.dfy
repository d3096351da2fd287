/**
 Crash-resumable finalization of a recording (kamrui-media-edge/camera-api/server.js,
 recording-safety.js): one file from the recorded segments. As for deletion, one run
 is the list of durable states it passes through and a crash keeps a prefix.
 */
module Finalization {
  import opened Wrappers
  import opened SegmentNames

  type Content = string

  type Directory = map<string, Content>

  const CONCAT_LIST := "concat.txt"

  /** The durable state file: absent, asking for finalization to be resumed, or failed. */
  datatype StateFile = Cleared | Finalizing | Failed

  /** What survives a crash: the active directory, the temporary and the final file, the
      metadata with its segment count, and the state file. */
  datatype Disk = Disk(
    dir: Directory, temp: Option<Content>, final: Option<Content>, metadata: Option<nat>, state: StateFile)

  /** What ffmpeg, ffprobe and the directory removal do in one run. */
  datatype Outcomes = Outcomes(partial: Content, concatOk: bool, valid: bool, removal: seq<string>, removeOk: bool)

  /** isInterruptedFinalization, on the state file left behind. */
  predicate AsksToResume(d: Disk) {
    d.state == Finalizing
  }

  function SegmentSet(dir: Directory): set<string> {
    set n | n in dir && IsSegment(n)
  }

  /** The sorted segment names of the directory (SegmentNames.ListingOrderIrrelevant). */
  ghost function Files(dir: Directory): (files: seq<string>)
    ensures forall f :: f in files <==> f in SegmentSet(dir)
  {
    InOrder(SegmentSet(dir))
  }

  /** What the concatenation of the listed files holds. */
  function Concat(dir: Directory, files: seq<string>): Content
    requires forall f :: f in files ==> f in dir
  {
    if files == [] then "" else dir[files[0]] + Concat(dir, files[1..])
  }

  function Last(d: Disk, states: seq<Disk>): Disk {
    if states == [] then d else states[|states| - 1]
  }

  datatype Progress = Progress(states: seq<Disk>, ok: bool)

  /** ffmpeg writes a temporary file, which is then renamed. */
  ghost function Concatenate(d: Disk, o: Outcomes): Progress {
    var cleared := d.(temp := None);
    var listed := cleared.(dir := d.dir[CONCAT_LIST := ""]);
    var writing := listed.(temp := Some(o.partial));
    if !o.concatOk then Progress([cleared, listed, writing], false)
    else
      var written := listed.(temp := Some(Concat(d.dir, Files(d.dir))));
      Progress([cleared, listed, writing, written, written.(final := written.temp, temp := None)], true)
  }

  /** Bring the final file into being, unless it is there already. */
  ghost function Produce(d: Disk, o: Outcomes): Progress {
    var files := Files(d.dir);
    if d.final.Some? then Progress([], true)
    else if files == [] then Progress([], false)
    else if |files| == 1 then
      Progress([d.(final := Some(d.dir[files[0]]), dir := d.dir - {files[0]})], true)
    else Concatenate(d, o)
  }

  /** Removing entries of the active directory one by one, in any order. */
  function RemoveEntries(d: Disk, removal: seq<string>): seq<Disk>
    decreases removal
  {
    if removal == [] then []
    else
      var removed := d.(dir := d.dir - {removal[0]});
      [removed] + RemoveEntries(removed, removal[1..])
  }

  /** After the final file exists and is valid: metadata, cleanup, state file. */
  function Record(d: Disk, segments: nat, o: Outcomes): seq<Disk> {
    var recorded := d.(metadata := Some(segments));
    var entries := RemoveEntries(recorded, o.removal);
    var rest := Last(recorded, entries);
    [recorded] + entries +
    (if o.removeOk then [rest.(dir := map[]), rest.(dir := map[], state := Cleared)] else [rest.(state := Failed)])
  }

  function AtLeastOne(n: nat): nat {
    if n == 0 then 1 else n
  }

  /** What follows producing the final file. */
  ghost function Commit(d: Disk, produced: bool, segments: nat, o: Outcomes): seq<Disk> {
    if produced && o.valid then Record(d, AtLeastOne(segments), o) else [d.(state := Failed)]
  }

  /** The durable states of one uninterrupted finalizeRecording. */
  ghost function Finalize(d: Disk, o: Outcomes): seq<Disk> {
    var started := d.(state := Finalizing);
    var made := Produce(started, o);
    [started] + made.states + Commit(Last(started, made.states), made.ok, |Files(d.dir)|, o)
  }

  datatype Run = Run(outcomes: Outcomes, survives: nat)

  ghost function Interrupted(d: Disk, run: Run): Disk {
    var states := Finalize(d, run.outcomes);
    if run.survives < |states| then Last(d, states[..run.survives]) else Last(d, states)
  }

  ghost function RunAll(d: Disk, runs: seq<Run>): Disk
    decreases runs
  {
    if runs == [] then d else RunAll(Interrupted(d, runs[0]), runs[1..])
  }

  // --- What holds at every durable state ---

  /** What is left of the segments is unchanged. */
  ghost predicate Leftover(original: Directory, dir: Directory) {
    forall n :: n in SegmentSet(dir) ==> n in original && dir[n] == original[n]
  }

  ghost predicate Intact(original: Directory, dir: Directory) {
    Leftover(original, dir) && SegmentSet(dir) == original.Keys
  }

  ghost function Joined(original: Directory): Content {
    Concat(original, InOrder(original.Keys))
  }

  /** The final file is absent and every original segment is there, or it holds exactly
      their in-order concatenation. */
  ghost predicate Good(original: Directory, d: Disk) {
    if d.final.Some? then d.final.value == Joined(original) && Leftover(original, d.dir)
    else Intact(original, d.dir) && d.metadata.None?
  }

  ghost predicate AllGood(original: Directory, states: seq<Disk>) {
    forall d :: d in states ==> Good(original, d)
  }

  lemma {:induction false} ConcatDependsOnContents(a: Directory, b: Directory, files: seq<string>)
    requires forall f :: f in files ==> f in a && f in b && a[f] == b[f]
    ensures Concat(a, files) == Concat(b, files)
  {
    if files != [] {
      ConcatDependsOnContents(a, b, files[1..]);
    }
  }

  lemma IntactConcat(original: Directory, dir: Directory)
    requires Intact(original, dir)
    ensures Files(dir) == InOrder(original.Keys)
    ensures Concat(dir, Files(dir)) == Joined(original)
    ensures Files(dir) == [] <==> original == map[]
  {
    ConcatDependsOnContents(dir, original, Files(dir));
    assert forall n :: n in Files(dir) <==> n in original;
    if original != map[] {
      var n :| n in original;
      assert n in Files(dir);
    }
  }

  lemma ListKeepsIntact(original: Directory, dir: Directory)
    requires Intact(original, dir)
    ensures Intact(original, dir[CONCAT_LIST := ""])
  {
    ListIsNoSegment();
    assert SegmentSet(dir[CONCAT_LIST := ""]) == SegmentSet(dir);
  }

  lemma ListIsNoSegment()
    ensures !IsSegment(CONCAT_LIST)
  {
    assert CONCAT_LIST[|CONCAT_LIST| - 4..][1] == 't';
    assert SUFFIX[1] == 'm';
  }

  lemma ConcatenateIsGood(original: Directory, d: Disk, o: Outcomes)
    requires Good(original, d) && d.final.None?
    ensures var p := Concatenate(d, o);
      AllGood(original, p.states) && (p.ok ==> Last(d, p.states).final.Some?)
  {
    assert Intact(original, d.dir) && d.metadata.None?;
    hide Good, AllGood, Concat, Files, Joined, Intact, Leftover;
    IntactConcat(original, d.dir);
    ListKeepsIntact(original, d.dir);
    IntactIsLeftover(original, d.dir[CONCAT_LIST := ""]);
    var cleared := d.(temp := None);
    var listed := cleared.(dir := d.dir[CONCAT_LIST := ""]);
    var writing := listed.(temp := Some(o.partial));
    AbsentIsGood(original, cleared);
    AbsentIsGood(original, listed);
    AbsentIsGood(original, writing);
    ThreeGood(original, cleared, listed, writing);
    if o.concatOk {
      var written := listed.(temp := Some(Joined(original)));
      AbsentIsGood(original, written);
      var done := written.(final := written.temp, temp := None);
      HeldIsGood(original, done);
      TwoMoreGood(original, [cleared, listed, writing], written, done);
      assert Concatenate(d, o).states == [cleared, listed, writing] + [written, done];
    }
  }

  lemma ThreeGood(original: Directory, a: Disk, b: Disk, c: Disk)
    requires Good(original, a) && Good(original, b) && Good(original, c)
    ensures AllGood(original, [a, b, c])
  {
    hide Good;
  }

  lemma TwoMoreGood(original: Directory, states: seq<Disk>, a: Disk, b: Disk)
    requires AllGood(original, states) && Good(original, a) && Good(original, b)
    ensures AllGood(original, states + [a, b])
  {
    hide Good;
  }

  lemma AbsentIsGood(original: Directory, d: Disk)
    requires d.final.None? && d.metadata.None? && Intact(original, d.dir)
    ensures Good(original, d)
  {
  }

  lemma HeldIsGood(original: Directory, d: Disk)
    requires d.final == Some(Joined(original)) && Leftover(original, d.dir)
    ensures Good(original, d)
  {
  }

  lemma IntactIsLeftover(original: Directory, dir: Directory)
    requires Intact(original, dir)
    ensures Leftover(original, dir)
  {
  }

  lemma ProduceIsGood(original: Directory, d: Disk, o: Outcomes)
    requires Good(original, d)
    ensures var p := Produce(d, o);
      && AllGood(original, p.states)
      && Good(original, Last(d, p.states))
      && (p.ok ==> Last(d, p.states).final.Some?)
  {
    hide Concatenate, Files, Concat, Joined;
    if d.final.None? {
      var files := Files(d.dir);
      if |files| == 1 {
        OnlySegmentIsGood(original, d);
      } else if files != [] {
        ConcatenateIsGood(original, d, o);
        hide Good;
      }
    }
  }

  lemma OnlySegmentIsGood(original: Directory, d: Disk)
    requires Good(original, d) && d.final.None? && |Files(d.dir)| == 1
    ensures var only := Files(d.dir)[0];
      only in d.dir && Good(original, d.(final := Some(d.dir[only]), dir := d.dir - {only}))
  {
    IntactConcat(original, d.dir);
    var files := Files(d.dir);
    assert files[0] in files;
    assert Concat(d.dir, files) == d.dir[files[0]] + "";
    hide Joined, InOrder;
  }

  lemma StateFileIsFree(original: Directory, d: Disk, state: StateFile)
    requires Good(original, d)
    ensures Good(original, d.(state := state))
  {
  }

  lemma FewerEntriesIsGood(original: Directory, d: Disk, entry: string)
    requires Good(original, d) && d.final.Some?
    ensures Good(original, d.(dir := d.dir - {entry}))
  {
  }

  lemma {:induction false} RemoveEntriesIsGood(original: Directory, d: Disk, removal: seq<string>)
    requires Good(original, d) && d.final.Some?
    ensures var states := RemoveEntries(d, removal);
      AllGood(original, states) && Good(original, Last(d, states)) && Last(d, states).final.Some?
    decreases removal
  {
    hide Good;
    if removal != [] {
      var removed := d.(dir := d.dir - {removal[0]});
      FewerEntriesIsGood(original, d, removal[0]);
      RemoveEntriesIsGood(original, removed, removal[1..]);
    }
  }

  lemma RecordIsGood(original: Directory, d: Disk, segments: nat, o: Outcomes)
    requires Good(original, d) && d.final.Some?
    ensures AllGood(original, Record(d, segments, o))
  {
    var recorded := d.(metadata := Some(segments));
    RemoveEntriesIsGood(original, recorded, o.removal);
    var rest := Last(recorded, RemoveEntries(recorded, o.removal));
    assert Good(original, recorded);
    EmptiedIsGood(original, rest);
    StateFileIsFree(original, rest.(dir := map[]), Cleared);
    StateFileIsFree(original, rest, Failed);
    hide Good, RemoveEntries, Last;
  }

  lemma EmptiedIsGood(original: Directory, d: Disk)
    requires Good(original, d) && d.final.Some?
    ensures Good(original, d.(dir := map[]))
  {
  }

  /** No durable state of a run loses a segment that the final file does not hold. */
  lemma FinalizeIsGood(original: Directory, d: Disk, o: Outcomes)
    requires Good(original, d)
    ensures AllGood(original, Finalize(d, o))
  {
    hide Produce, Record, Good, Files;
    var started := d.(state := Finalizing);
    StateFileIsFree(original, d, Finalizing);
    ProduceIsGood(original, started, o);
    var made := Produce(started, o);
    var after := Last(started, made.states);
    if made.ok && o.valid {
      RecordIsGood(original, after, AtLeastOne(|Files(d.dir)|), o);
    } else {
      StateFileIsFree(original, after, Failed);
    }
  }

  lemma ProduceStep(d: Disk, o: Outcomes, before: seq<Disk>, after: seq<Disk>)
    requires after == before + Produce(d, o).states
    ensures var p := Produce(d, o);
      && after[|before|..] == p.states
      && forall original :: Good(original, d) ==>
        && AllGood(original, p.states) && Good(original, Last(d, p.states))
        && (p.ok ==> Last(d, p.states).final == Some(Joined(original)))
  {
    hide Produce, Last, AllGood, Joined;
    forall original | Good(original, d)
      ensures var p := Produce(d, o);
        && AllGood(original, p.states) && Good(original, Last(d, p.states))
        && (p.ok ==> Last(d, p.states).final == Some(Joined(original)))
    {
      ProduceIsGood(original, d, o);
    }
  }

  // --- Media that fails its validation ---

  /** Whether a run brings a final file into being, or finds one. */
  ghost predicate Producible(d: Disk, o: Outcomes) {
    d.final.Some? || |Files(d.dir)| == 1 || (Files(d.dir) != [] && o.concatOk)
  }

  /** Every segment is still in the directory with its content, or it was the only one and
      is now the final file; a final file that was there stays. */
  ghost predicate KeepsMedia(d: Disk, s: Disk) {
    && (d.final.Some? ==> s.final == d.final)
    && forall n :: n in SegmentSet(d.dir) ==>
         || (n in s.dir && s.dir[n] == d.dir[n])
         || (d.final.None? && SegmentSet(d.dir) == {n} && s.final == Some(d.dir[n]))
  }

  /** A durable state of a run that started from `d`: segments are given up and metadata is
      written only with a final file that has been validated. */
  ghost predicate Cautious(d: Disk, o: Outcomes, s: Disk) {
    || (s.metadata == d.metadata && s.state != Cleared && KeepsMedia(d, s))
    || (o.valid && Producible(d, o) && s.final.Some? && s.metadata == Some(AtLeastOne(|Files(d.dir)|))
        && (s.state == Cleared ==> o.removeOk && s.dir == map[]))
  }

  ghost predicate AllCautious(d: Disk, o: Outcomes, states: seq<Disk>) {
    forall i :: 0 <= i < |states| ==> Cautious(d, o, states[i])
  }

  /** A durable state before anything is recorded. */
  ghost predicate Unrecorded(d: Disk, s: Disk) {
    s.metadata == d.metadata && s.state == Finalizing && KeepsMedia(d, s)
  }

  ghost predicate AllUnrecorded(d: Disk, states: seq<Disk>) {
    forall i :: 0 <= i < |states| ==> Unrecorded(d, states[i])
  }

  lemma ConcatenateKeepsMedia(d: Disk, s: Disk, o: Outcomes)
    requires s == d.(state := Finalizing) && d.final.None?
    ensures var p := Concatenate(s, o);
      AllUnrecorded(d, p.states) && Unrecorded(d, Last(s, p.states)) && (p.ok ==> Last(s, p.states).final.Some?)
  {
    hide Files, Concat;
    ListIsNoSegment();
  }

  lemma OnlySegment(dir: Directory)
    requires |Files(dir)| == 1
    ensures SegmentSet(dir) == {Files(dir)[0]}
  {
    var only := Files(dir)[0];
    assert forall f :: f in Files(dir) <==> f == only;
    assert forall f :: f in SegmentSet(dir) <==> f in Files(dir);
  }

  lemma ProduceKeepsMedia(d: Disk, s: Disk, o: Outcomes)
    requires s == d.(state := Finalizing)
    ensures var p := Produce(s, o);
      && AllUnrecorded(d, p.states) && Unrecorded(d, Last(s, p.states))
      && (p.ok <==> Producible(d, o)) && (p.ok ==> Last(s, p.states).final.Some?)
  {
    hide Concatenate, Files;
    if d.final.None? {
      if |Files(d.dir)| == 1 {
        OnlySegment(d.dir);
      } else {
        ConcatenateKeepsMedia(d, s, o);
        ConcatenateSucceeds(s, o);
      }
    }
  }

  lemma {:induction false} RemovalKeepsRecord(d: Disk, removal: seq<string>)
    ensures forall i :: 0 <= i < |RemoveEntries(d, removal)| ==>
      RemoveEntries(d, removal)[i].(dir := map[]) == d.(dir := map[])
    decreases removal
  {
    if removal != [] {
      RemovalKeepsRecord(d.(dir := d.dir - {removal[0]}), removal[1..]);
    }
  }

  lemma RecordIsCautious(d: Disk, s: Disk, o: Outcomes)
    requires s.state == Finalizing && s.final.Some? && o.valid && Producible(d, o)
    ensures var states := Record(s, AtLeastOne(|Files(d.dir)|), o);
      && AllCautious(d, o, states)
      && Last(s, states).metadata == Some(AtLeastOne(|Files(d.dir)|))
      && Last(s, states).state == (if o.removeOk then Cleared else Failed) && Last(s, states).final == s.final
  {
    hide Files, KeepsMedia, Producible;
    var recorded := s.(metadata := Some(AtLeastOne(|Files(d.dir)|)));
    RemovalKeepsRecord(recorded, o.removal);
    RemoveEntriesKeeps(recorded, o.removal);
  }

  lemma UnrecordedIsCautious(d: Disk, o: Outcomes, states: seq<Disk>)
    requires AllUnrecorded(d, states)
    ensures AllCautious(d, o, states)
  {
    hide KeepsMedia;
  }

  lemma AppendCautious(d: Disk, o: Outcomes, a: seq<Disk>, b: seq<Disk>)
    requires AllCautious(d, o, a) && AllCautious(d, o, b)
    ensures AllCautious(d, o, a + b)
  {
    hide Cautious;
  }

  /** How a run ends: recorded exactly when there is a final file and it is valid, concluded
      exactly when the directory could be removed as well, otherwise failed. */
  ghost predicate Concluded(d: Disk, o: Outcomes, end: Disk) {
    if o.valid && Producible(d, o) then
      && end.metadata == Some(AtLeastOne(|Files(d.dir)|)) && end.final.Some?
      && (if o.removeOk then end.state == Cleared && end.dir == map[] else end.state == Failed)
    else end.metadata == d.metadata && end.state == Failed && KeepsMedia(d, end)
  }

  lemma FinalizeIsCautious(d: Disk, o: Outcomes)
    ensures AllCautious(d, o, Finalize(d, o)) && Concluded(d, o, Last(d, Finalize(d, o)))
  {
    hide Produce, Record, Files, KeepsMedia, Producible, Cautious, AllCautious;
    var started := d.(state := Finalizing);
    var made := Produce(started, o);
    var after := Last(started, made.states);
    StartedIsUnrecorded(d);
    ProduceKeepsMedia(d, started, o);
    UnrecordedIsCautious(d, o, [started]);
    UnrecordedIsCautious(d, o, made.states);
    AppendCautious(d, o, [started], made.states);
    var commit := Commit(after, made.ok, |Files(d.dir)|, o);
    if made.ok && o.valid {
      RecordIsCautious(d, after, o);
      RecordConcludes(after, AtLeastOne(|Files(d.dir)|), o);
    } else {
      FailedIsCautious(d, o, after);
    }
    AppendCautious(d, o, [started] + made.states, commit);
    FinalizeEnds(d, o);
  }

  lemma RecordConcludes(d: Disk, segments: nat, o: Outcomes)
    ensures o.removeOk ==> Last(d, Record(d, segments, o)).dir == map[]
  {
    if o.removeOk {
      RecordEnds(d, segments, o);
    }
  }

  lemma StartedIsUnrecorded(d: Disk)
    ensures Unrecorded(d, d.(state := Finalizing)) && AllUnrecorded(d, [d.(state := Finalizing)])
  {
  }

  lemma FailedIsCautious(d: Disk, o: Outcomes, s: Disk)
    requires Unrecorded(d, s)
    ensures AllCautious(d, o, [s.(state := Failed)]) && KeepsMedia(d, s.(state := Failed))
  {
  }

  lemma KeepsMediaOnwards(d: Disk, s: Disk, t: Disk)
    requires KeepsMedia(d, s) && KeepsMedia(s, t)
    ensures KeepsMedia(d, t)
  {
    forall n | n in SegmentSet(d.dir)
      ensures (n in t.dir && t.dir[n] == d.dir[n]) || (d.final.None? && SegmentSet(d.dir) == {n} && t.final == Some(d.dir[n]))
    {
      if n in s.dir && s.dir[n] == d.dir[n] {
        assert n in SegmentSet(s.dir);
        if !(n in t.dir && t.dir[n] == s.dir[n]) {
          assert SegmentSet(s.dir) == {n} && s.final.None?;
          assert forall m :: m in SegmentSet(d.dir) ==> m in SegmentSet(s.dir);
        }
      }
    }
  }

  /** Over any crashes and re-runs in which nothing passes validation, no segment is lost and
      no metadata is written. */
  lemma {:induction false} UnvalidatedMediaIsKept(d: Disk, runs: seq<Run>)
    requires forall run :: run in runs ==> !run.outcomes.valid
    ensures RunAll(d, runs).metadata == d.metadata && KeepsMedia(d, RunAll(d, runs))
    decreases runs
  {
    hide Finalize, KeepsMedia;
    if runs == [] {
      KeepsItself(d);
    } else {
      var run := runs[0];
      assert run in runs;
      var states := Finalize(d, run.outcomes);
      FinalizeIsCautious(d, run.outcomes);
      var d' := Interrupted(d, run);
      if run.survives == 0 || states == [] {
        KeepsItself(d);
      }
      assert d'.metadata == d.metadata && KeepsMedia(d, d');
      UnvalidatedMediaIsKept(d', runs[1..]);
      KeepsMediaOnwards(d, d', RunAll(d', runs[1..]));
    }
  }

  lemma KeepsItself(d: Disk)
    ensures KeepsMedia(d, d)
  {
  }

  /** finalizeRecording as it changes the durable state, effect by effect. `passed` lists
      the durable states in order. */
  class Workspace {
    var dir: Directory
    var temp: Option<Content>
    var final: Option<Content>
    var metadata: Option<nat>
    var state: StateFile
    ghost var passed: seq<Disk>

    function Current(): Disk
      reads this
    {
      Disk(dir, temp, final, metadata, state)
    }

    constructor (d: Disk)
      ensures Current() == d && passed == []
    {
      dir, temp, final, metadata, state := d.dir, d.temp, d.final, d.metadata, d.state;
      passed := [];
    }

    /** `files` is the listing of the directory, filtered and sorted. Whatever the original
        segments were: at every state the final file is absent and all of them are there, or
        it is exactly their in-order concatenation, and it is there if the method says so. */
    method MakeFinal(files: seq<string>, o: Outcomes) returns (ok: bool)
      requires files == Files(dir)
      modifies this
      ensures old(passed) <= passed
      ensures forall original :: Good(original, old(Current())) ==>
        && AllGood(original, passed[|old(passed)|..]) && Good(original, Current())
        && (ok ==> final == Some(Joined(original)))
      ensures var p := Produce(old(Current()), o);
        passed == old(passed) + p.states && Current() == Last(old(Current()), p.states) && ok == p.ok
    {
      hide Concatenate, Files, Concat, Good, AllGood, Joined;
      ok := final.Some?;
      if final.None? && |files| == 1 {
        assert files[0] in files;
        final, dir := Some(dir[files[0]]), dir - {files[0]};
        passed := passed + [Current()];
        ok := true;
      } else if final.None? && files != [] {
        ok := RunConcat(files, o);
      }
      hide Produce;
      ProduceStep(old(Current()), o, old(passed), passed);
    }

    method RunConcat(files: seq<string>, o: Outcomes) returns (ok: bool)
      requires files == Files(dir)
      modifies this
      ensures var p := Concatenate(old(Current()), o);
        passed == old(passed) + p.states && Current() == Last(old(Current()), p.states) && ok == p.ok
    {
      hide Files, Concat;
      var joined := Concat(dir, files);
      temp := None;
      passed := passed + [Current()];
      dir := dir[CONCAT_LIST := ""];
      passed := passed + [Current()];
      temp := Some(o.partial);
      passed := passed + [Current()];
      ok := o.concatOk;
      if ok {
        temp := Some(joined);
        passed := passed + [Current()];
        final, temp := temp, None;
        passed := passed + [Current()];
      }
    }

    method RemoveDirectory(o: Outcomes)
      modifies this
      ensures var entries := RemoveEntries(old(Current()), o.removal);
        var rest := Last(old(Current()), entries);
        && Current() == (if o.removeOk then rest.(dir := map[]) else rest)
        && passed == old(passed) + entries + (if o.removeOk then [rest.(dir := map[])] else [])
    {
      var i := 0;
      ghost var entries := RemoveEntries(Current(), o.removal);
      while i < |o.removal|
        invariant 0 <= i <= |o.removal|
        invariant |passed| >= |old(passed)| && passed[..|old(passed)|] == old(passed)
        invariant passed + RemoveEntries(Current(), o.removal[i..]) == old(passed) + entries
        invariant Last(Current(), RemoveEntries(Current(), o.removal[i..])) == Last(old(Current()), entries)
      {
        dir := dir - {o.removal[i]};
        passed := passed + [Current()];
        assert o.removal[i..][1..] == o.removal[i + 1..];
        i := i + 1;
      }
      if o.removeOk {
        dir := map[];
        passed := passed + [Current()];
      }
    }

    /** Metadata, cleanup and state file, once the final file is there and valid. */
    method CommitFinal(produced: bool, segments: nat, o: Outcomes)
      modifies this
      ensures passed == old(passed) + Commit(old(Current()), produced, segments, o)
      ensures Current() == Last(old(Current()), Commit(old(Current()), produced, segments, o))
    {
      hide RemoveEntries;
      if produced && o.valid {
        metadata := Some(if segments == 0 then 1 else segments);
        passed := passed + [Current()];
        RemoveDirectory(o);
        state := if o.removeOk then Cleared else Failed;
      } else {
        state := Failed;
      }
      passed := passed + [Current()];
    }

    /** finalizeRecording, when nothing interrupts it. Segments are given up and metadata is
        written only with a valid final file; otherwise the run ends failed with every segment
        kept. */
    method Run(files: seq<string>, o: Outcomes) returns (ok: bool)
      requires files == Files(dir)
      modifies this
      ensures passed == old(passed) + Finalize(old(Current()), o)
      ensures Current() == Last(old(Current()), Finalize(old(Current()), o))
      ensures AllCautious(old(Current()), o, passed[|old(passed)|..])
      ensures Concluded(old(Current()), o, Current())
      ensures ok <==> o.valid && o.removeOk && (old(final).Some? || |files| == 1 || (files != [] && o.concatOk))
      ensures !o.valid ==> metadata == old(metadata) && state == Failed && KeepsMedia(old(Current()), Current())
    {
      hide Produce, Files, Commit, Good, AllGood, Joined, Last, Cautious, AllCautious, KeepsMedia, Finalize;
      ghost var d := Current();
      FinalizeIsCautious(d, o);
      state := Finalizing;
      passed := passed + [Current()];
      var produced := MakeFinal(files, o);
      CommitFinal(produced, |files|, o);
      FinalizeEnds(d, o);
      FinalizeUnfolds(d, o);
      ok := produced && o.valid && o.removeOk;
    }
  }

  /** Over any sequence of crashes and re-runs. */
  lemma {:induction false} FinalizationSurvivesCrashes(original: Directory, d: Disk, runs: seq<Run>)
    requires Good(original, d)
    ensures Good(original, RunAll(d, runs))
    decreases runs
  {
    if runs != [] {
      FinalizeIsGood(original, d, runs[0].outcomes);
      FinalizationSurvivesCrashes(original, Interrupted(d, runs[0]), runs[1..]);
    }
  }

  function InSequence(contents: seq<Content>): Content {
    if contents == [] then "" else contents[0] + InSequence(contents[1..])
  }

  lemma {:induction false} ConcatIsInSequence(dir: Directory, files: seq<string>, contents: seq<Content>)
    requires |files| == |contents|
    requires forall i :: 0 <= i < |files| ==> files[i] in dir && dir[files[i]] == contents[i]
    ensures Concat(dir, files) == InSequence(contents)
  {
    if files != [] {
      ConcatIsInSequence(dir, files[1..], contents[1..]);
    }
  }

  /** Segments recorded under their padded numbers, up to a thousand of them, end up in
      the final file in the order they were recorded. */
  lemma FinalFileInRecordingOrder(prefix: string, contents: seq<Content>, d: Disk, runs: seq<Run>)
    requires |contents| <= 1000 && d.final.None? && d.metadata.None?
    requires forall n :: n in d.dir && IsSegment(n) ==> exists i :: 0 <= i < |contents| && n == SegmentName(prefix, i)
    requires forall i :: 0 <= i < |contents| ==> SegmentName(prefix, i) in d.dir && d.dir[SegmentName(prefix, i)] == contents[i]
    ensures var final := RunAll(d, runs).final;
      final.Some? ==> final.value == InSequence(contents)
  {
    var original := SegmentsOf(d.dir);
    RecordedSegments(prefix, contents, d.dir);
    hide SegmentsOf, SegmentName, RunAll, Good;
    OriginalIsGood(d);
    FinalizationSurvivesCrashes(original, d, runs);
    HeldIsJoined(original, RunAll(d, runs));
    DirectoryInRecordingOrder(prefix, |contents|);
    ConcatIsInSequence(original, Recorded(prefix, |contents|), contents);
  }

  /** The segments of a directory with their contents. */
  function SegmentsOf(dir: Directory): Directory {
    map n | n in SegmentSet(dir) :: dir[n]
  }

  lemma OriginalIsGood(d: Disk)
    requires d.final.None? && d.metadata.None?
    ensures Good(SegmentsOf(d.dir), d)
  {
    assert SegmentsOf(d.dir).Keys == SegmentSet(d.dir);
  }

  lemma HeldIsJoined(original: Directory, d: Disk)
    requires Good(original, d)
    ensures d.final.Some? ==> d.final.value == Joined(original)
  {
  }

  lemma RecordedSegments(prefix: string, contents: seq<Content>, dir: Directory)
    requires forall n :: n in dir && IsSegment(n) ==> exists i :: 0 <= i < |contents| && n == SegmentName(prefix, i)
    requires forall i :: 0 <= i < |contents| ==> SegmentName(prefix, i) in dir && dir[SegmentName(prefix, i)] == contents[i]
    ensures SegmentsOf(dir).Keys == set i | 0 <= i < |contents| :: SegmentName(prefix, i)
    ensures forall i :: 0 <= i < |contents| ==>
      SegmentName(prefix, i) in SegmentsOf(dir) && SegmentsOf(dir)[SegmentName(prefix, i)] == contents[i]
  {
    forall i | 0 <= i < |contents| ensures SegmentName(prefix, i) in SegmentSet(dir) {
      SegmentNamesAreSegments(prefix, i);
    }
    hide SegmentName, IsSegment;
  }

  // --- Resuming ---

  lemma {:induction false} RemoveEntriesKeeps(d: Disk, removal: seq<string>)
    ensures var states := RemoveEntries(d, removal);
      && Last(d, states).(dir := map[]) == d.(dir := map[])
      && forall s :: s in states ==> s.state == d.state
    decreases removal
  {
    if removal != [] {
      RemoveEntriesKeeps(d.(dir := d.dir - {removal[0]}), removal[1..]);
    }
  }

  predicate AllAsk(states: seq<Disk>) {
    forall i :: 0 <= i < |states| ==> AsksToResume(states[i])
  }

  lemma RecordAsks(d: Disk, segments: nat, o: Outcomes)
    requires AsksToResume(d)
    ensures var states := Record(d, segments, o);
      |states| > 0 && AllAsk(states[..|states| - 1]) && !AsksToResume(states[|states| - 1])
  {
    var recorded := d.(metadata := Some(segments));
    RemoveEntriesKeeps(recorded, o.removal);
    var entries := RemoveEntries(recorded, o.removal);
    assert AllAsk([recorded] + entries);
    var states := Record(d, segments, o);
    if o.removeOk {
      assert states[..|states| - 1] == [recorded] + entries + [Last(recorded, entries).(dir := map[])];
    } else {
      assert states[..|states| - 1] == [recorded] + entries;
    }
  }

  lemma ProduceAsks(d: Disk, o: Outcomes)
    requires AsksToResume(d)
    ensures AllAsk(Produce(d, o).states) && AsksToResume(Last(d, Produce(d, o).states))
  {
    hide Files, Concat;
  }

  /** Exactly until a run has concluded, the state file asks the next start to resume it. */
  lemma EveryCrashIsResumed(d: Disk, o: Outcomes)
    ensures var states := Finalize(d, o);
      forall i :: 0 <= i < |states| ==> (AsksToResume(states[i]) <==> i < |states| - 1)
  {
    hide Produce, Record, Files;
    var started := d.(state := Finalizing);
    ProduceAsks(started, o);
    var made := Produce(started, o);
    var after := Last(started, made.states);
    var segments := |Files(d.dir)|;
    var commit := Commit(after, made.ok, segments, o);
    if made.ok && o.valid {
      RecordAsks(after, AtLeastOne(segments), o);
    }
    var states := Finalize(d, o);
    assert AllAsk([started] + made.states);
    assert states == ([started] + made.states) + commit;
    assert states[..|states| - 1] == ([started] + made.states) + commit[..|commit| - 1];
    forall i | 0 <= i < |states| - 1 ensures AsksToResume(states[i]) {
      assert states[i] == states[..|states| - 1][i];
    }
  }

  lemma RecordEnds(d: Disk, segments: nat, o: Outcomes)
    requires o.removeOk
    ensures Last(d, Record(d, segments, o)) == d.(metadata := Some(segments), dir := map[], state := Cleared)
  {
    var recorded := d.(metadata := Some(segments));
    RemoveEntriesKeeps(recorded, o.removal);
  }

  predicate ToolsSucceed(o: Outcomes) {
    o.concatOk && o.valid && o.removeOk
  }

  lemma ProduceSucceeds(original: Directory, d: Disk, o: Outcomes)
    requires Good(original, d) && original != map[] && o.concatOk
    ensures var p := Produce(d, o);
      p.ok && Good(original, Last(d, p.states)) && Last(d, p.states).final == Some(Joined(original))
  {
    hide Concatenate;
    ProduceIsGood(original, d, o);
    if d.final.None? {
      IntactConcat(original, d.dir);
      ConcatenateSucceeds(d, o);
    }
  }

  lemma ConcatenateSucceeds(d: Disk, o: Outcomes)
    ensures Concatenate(d, o).ok <==> o.concatOk
  {
  }

  lemma FinalizeEnds(d: Disk, o: Outcomes)
    ensures var started := d.(state := Finalizing);
      var made := Produce(started, o);
      var after := Last(started, made.states);
      Last(d, Finalize(d, o)) == Last(after, Commit(after, made.ok, |Files(d.dir)|, o))
  {
    hide Produce, RemoveEntries, Files;
  }

  lemma FinalizeUnfolds(d: Disk, o: Outcomes)
    ensures var started := d.(state := Finalizing);
      var made := Produce(started, o);
      && Finalize(d, o) == [started] + made.states + Commit(Last(started, made.states), made.ok, |Files(d.dir)|, o)
      && (made.ok <==> Producible(d, o))
  {
    ProduceKeepsMedia(d, d.(state := Finalizing), o);
  }

  /** A run in which the tools succeed finishes the job. */
  lemma SuccessfulRunCompletes(original: Directory, d: Disk, o: Outcomes)
    requires Good(original, d) && original != map[] && ToolsSucceed(o)
    ensures var end := Last(d, Finalize(d, o));
      && end.final == Some(Joined(original))
      && end.metadata == Some(AtLeastOne(|Files(d.dir)|)) && end.dir == map[] && end.state == Cleared
  {
    hide Record, Produce, Good, Files;
    var started := d.(state := Finalizing);
    StateFileIsFree(original, d, Finalizing);
    ProduceIsGood(original, started, o);
    ProduceSucceeds(original, started, o);
    var made := Produce(started, o);
    var after := Last(started, made.states);
    var segments := AtLeastOne(|Files(d.dir)|);
    RecordEnds(after, segments, o);
    hide Last;
    FinalizeEnds(d, o);
  }

  /** ... whatever crashed before. */
  lemma ResumedRunCompletes(original: Directory, d: Disk, runs: seq<Run>, o: Outcomes)
    requires Good(original, d) && original != map[] && ToolsSucceed(o)
    ensures var before := RunAll(d, runs);
      var end := Last(before, Finalize(before, o));
      end.final == Some(Joined(original)) && end.metadata.Some? && end.dir == map[] && end.state == Cleared
  {
    FinalizationSurvivesCrashes(original, d, runs);
    SuccessfulRunCompletes(original, RunAll(d, runs), o);
  }

  lemma CountsIff(original: Directory, dir: Directory)
    requires Leftover(original, dir)
    ensures |SegmentSet(dir)| <= |original|
    ensures |SegmentSet(dir)| == |original| <==> Intact(original, dir)
  {
    var present := SegmentSet(dir);
    assert present <= original.Keys;
    assert |original.Keys - present| == |original.Keys| - |present|;
  }

  lemma FilesCount(dir: Directory)
    ensures |Files(dir)| == |SegmentSet(dir)|
  {
    assert |multiset(Files(dir))| == |multiset(SegmentSet(dir))|;
  }

  /** The recorded segment count is the original one exactly when this run still finds every
      segment in place, or there was only one; a run resumed while the directory is being
      removed records too few. */
  lemma SegmentCountIff(original: Directory, d: Disk, o: Outcomes)
    requires Good(original, d) && original != map[] && ToolsSucceed(o)
    ensures Last(d, Finalize(d, o)).metadata == Some(|original|) <==> Intact(original, d.dir) || |original| == 1
  {
    hide Finalize, Last, Intact;
    SuccessfulRunCompletes(original, d, o);
    FilesCount(d.dir);
    GoodLeavesOver(original, d);
    CountsIff(original, d.dir);
    assert |original| > 0;
  }

  lemma GoodLeavesOver(original: Directory, d: Disk)
    requires Good(original, d)
    ensures Leftover(original, d.dir)
  {
  }
}
