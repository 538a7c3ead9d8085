/** Saving the configuration: a temporary file beside the target, then a rename. Every
    operating-system call may fail, a write may stop half-way, and every state the disk goes
    through is kept. */
module SaveFile {
  import opened Text
  import opened Decimal
  import opened ConfigModel
  import opened Toml
  import opened TomlRoundTrip
  import opened TomlOverlay

  datatype Path = Path(dir: string, base: string)

  datatype File = File(data: string, mode: nat)

  type Files = map<Path, File>

  /** What the operating system answers during one call of Save. */
  datatype Answers = Answers(
    tempFails: bool, random: nat,
    writeFails: bool, written: nat,
    chmodFails: bool, closeFails: bool, renameFails: bool, removeFails: bool)

  const TEMP_MODE := 0x180   // 0600 octal
  const SAVED_MODE := 0x1A4  // 0644 octal

  /** os.CreateTemp with the pattern ".ubo-*.toml.tmp": the star is a random 32-bit number. */
  function TempBase(random: nat): string {
    ".ubo-" + Itoa(random) + ".toml.tmp"
  }

  function TempPath(dir: string, random: nat): Path {
    Path(dir, TempBase(random))
  }

  /** A temporary file is only ever created under a name that is free. */
  predicate Possible(files: Files, path: Path, a: Answers) {
    a.random < 0x1_0000_0000 && (!a.tempFails ==> TempPath(path.dir, a.random) !in files)
  }

  function At(files: Files, path: Path): Option<File> {
    if path in files then Some(files[path]) else None
  }

  /** The disk, with every state it has been in since it was first looked at. */
  class Disk {
    var files: Files
    ghost var history: seq<Files>

    constructor (start: Files)
      ensures files == start && history == [start]
    {
      files := start;
      history := [start];
    }

    method Update(next: Files)
      modifies this
      ensures files == next && history == old(history) + [next]
    {
      files := next;
      history := history + [next];
    }

    method CreateTemp(dir: string, a: Answers) returns (tmp: Option<Path>)
      requires Possible(files, Path(dir, ""), a)
      modifies this
      ensures a.tempFails ==> tmp == None && files == old(files) && history == old(history)
      ensures !a.tempFails ==>
                tmp == Some(TempPath(dir, a.random))
                && files == old(files)[tmp.value := File("", TEMP_MODE)] && history == old(history) + [files]
    {
      if a.tempFails {
        return None;
      }
      tmp := Some(TempPath(dir, a.random));
      Update(files[tmp.value := File("", TEMP_MODE)]);
    }

    /** A failing write leaves any part of the data behind. */
    method Write(p: Path, data: string, a: Answers) returns (ok: bool)
      requires p in files
      modifies this
      ensures ok == !a.writeFails
      ensures var kept := if a.writeFails && a.written < |data| then data[..a.written] else data;
              files == old(files)[p := old(files)[p].(data := kept)] && history == old(history) + [files]
    {
      var kept := if a.writeFails && a.written < |data| then data[..a.written] else data;
      Update(files[p := files[p].(data := kept)]);
      return !a.writeFails;
    }

    method Chmod(p: Path, mode: nat, a: Answers) returns (ok: bool)
      requires p in files
      modifies this
      ensures ok == !a.chmodFails
      ensures ok ==> files == old(files)[p := old(files)[p].(mode := mode)] && history == old(history) + [files]
      ensures !ok ==> files == old(files) && history == old(history)
    {
      if a.chmodFails {
        return false;
      }
      Update(files[p := files[p].(mode := mode)]);
      return true;
    }

    method Rename(from: Path, to: Path, a: Answers) returns (ok: bool)
      requires from in files
      modifies this
      ensures ok == !a.renameFails
      ensures ok ==> files == Moved(old(files), from, to) && history == old(history) + [files]
      ensures !ok ==> files == old(files) && history == old(history)
    {
      if a.renameFails {
        return false;
      }
      Update(Moved(files, from, to));
      return true;
    }

    method Remove(p: Path, a: Answers)
      modifies this
      ensures a.removeFails ==> files == old(files) && history == old(history)
      ensures !a.removeFails ==> files == old(files) - {p} && history == old(history) + [files]
    {
      if !a.removeFails {
        Update(files - {p});
      }
    }
  }

  /** rename(2): nothing happens when both names are the same. */
  function Moved(files: Files, from: Path, to: Path): Files
    requires from in files
  {
    if from == to then files else files[to := files[from]] - {from}
  }

  /** One run of Save: the states the disk goes through after the first, and the result. */
  datatype SaveRun = SaveRun(states: seq<Files>, ok: bool)

  /** The states of a run, one per operating-system call that changes anything. */
  function RunSave(files: Files, text: string, path: Path, a: Answers): SaveRun {
    if a.tempFails then SaveRun([], false)
    else
      var tmp := TempPath(path.dir, a.random);
      var created := files[tmp := File("", TEMP_MODE)];
      var kept := if a.writeFails && a.written < |text| then text[..a.written] else text;
      var written := created[tmp := File(kept, TEMP_MODE)];
      var moded := written[tmp := File(kept, SAVED_MODE)];
      if a.writeFails then SaveRun([created, written] + Cleanup(written, tmp, a), false)
      else if a.chmodFails then SaveRun([created, written] + Cleanup(written, tmp, a), false)
      else if a.closeFails then SaveRun([created, written, moded] + Cleanup(moded, tmp, a), false)
      else if a.renameFails then SaveRun([created, written, moded] + Cleanup(moded, tmp, a), false)
      else
        var renamed := Moved(moded, tmp, path);
        SaveRun([created, written, moded, renamed] + Cleanup(renamed, tmp, a), true)
  }

  /** The deferred removal of the temporary file. */
  function Cleanup(files: Files, tmp: Path, a: Answers): seq<Files> {
    if a.removeFails then [] else [files - {tmp}]
  }

  function Last(files: Files, run: SaveRun): Files {
    if run.states == [] then files else run.states[|run.states| - 1]
  }

  /** No call that Save depends on fails; the removal of the temporary file is none of them. */
  predicate NothingFails(a: Answers) {
    !a.tempFails && !a.writeFails && !a.chmodFails && !a.closeFails && !a.renameFails
  }

  /** The part of Save behind the printing. */
  method Replace(disk: Disk, data: string, path: Path, a: Answers) returns (ok: bool)
    requires Possible(disk.files, path, a)
    modifies disk
    ensures var run := RunSave(old(disk.files), data, path, a);
            ok == run.ok && disk.history == old(disk.history) + run.states && disk.files == Last(old(disk.files), run)
    ensures ok <==> NothingFails(a)
  {
    ghost var run := RunSave(disk.files, data, path, a);
    ghost var before := disk.history;
    var tmp := disk.CreateTemp(path.dir, a);
    if tmp == None {
      assert before + run.states == before;
      return false;
    }
    var written := disk.Write(tmp.value, data, a);
    assert disk.history == before + run.states[..2];
    if !written {
      disk.Remove(tmp.value, a);
      assert disk.history == before + run.states;
      return false;
    }
    var moded := disk.Chmod(tmp.value, SAVED_MODE, a);
    if !moded {
      disk.Remove(tmp.value, a);
      assert disk.history == before + run.states;
      return false;
    }
    assert disk.history == before + run.states[..3];
    if a.closeFails {
      disk.Remove(tmp.value, a);
      assert disk.history == before + run.states;
      return false;
    }
    ok := disk.Rename(tmp.value, path, a);
    disk.Remove(tmp.value, a);
    assert disk.history == before + run.states;
  }

  method Save(disk: Disk, cfg: Config, path: Path, a: Answers) returns (ok: bool)
    requires Possible(disk.files, path, a)
    modifies disk
    ensures var run := RunSave(old(disk.files), PrintSettings(cfg.Value()), path, a);
            ok == run.ok && disk.history == old(disk.history) + run.states && disk.files == Last(old(disk.files), run)
    ensures ok <==> NothingFails(a)
  {
    var data := Marshal(cfg);
    ok := Replace(disk, data, path, a);
  }

  /** What an atomic replacement promises: at every moment the target is what it was or the
      complete new file with mode 0644; success means the new file and failure the old one, and
      there is success exactly when no call fails; nothing else on the disk changes but the
      temporary file, which has mode 0600 until it is complete and is gone when removal works. */
  ghost predicate Atomic(files: Files, text: string, path: Path, a: Answers, run: SaveRun) {
    var before, after := At(files, path), Some(File(text, 0x1A4));
    var tmp := TempPath(path.dir, a.random);
    && (forall i :: 0 <= i < |run.states| ==> At(run.states[i], path) == before || At(run.states[i], path) == after)
    && (run.ok <==> NothingFails(a))
    && At(Last(files, run), path) == (if run.ok then after else before)
    && (forall i, p :: 0 <= i < |run.states| && p != path && p != tmp ==> At(run.states[i], p) == At(files, p))
    && (!a.tempFails ==> forall i :: 0 <= i < |run.states| && tmp in run.states[i] ==>
          var f := run.states[i][tmp]; f.mode == 0x180 || (f.mode == 0x1A4 && f.data == text))
    && (!a.tempFails && !a.removeFails ==> tmp !in Last(files, run))
  }

  lemma AtomicWhenApart(files: Files, text: string, path: Path, a: Answers)
    requires Possible(files, path, a)
    requires !a.tempFails ==> TempPath(path.dir, a.random) != path
    ensures Atomic(files, text, path, a, RunSave(files, text, path, a))
  {
  }

  /** A name that a temporary file could have taken. */
  ghost predicate LooksTemporary(path: Path) {
    exists r: nat :: r < 0x1_0000_0000 && path.base == TempBase(r)
  }

  /** Save is atomic under every behaviour of the operating system exactly when the target
      exists already or is not itself named like a temporary file. */
  lemma SaveAtomic(files: Files, text: string, path: Path)
    ensures (forall a :: Possible(files, path, a) ==> Atomic(files, text, path, a, RunSave(files, text, path, a)))
            <==> path in files || !LooksTemporary(path)
  {
    if path in files || !LooksTemporary(path) {
      forall a | Possible(files, path, a) ensures Atomic(files, text, path, a, RunSave(files, text, path, a)) {
        if !a.tempFails {
          assert path.base == TempBase(a.random) ==> LooksTemporary(path);
        }
        AtomicWhenApart(files, text, path, a);
      }
    } else {
      var r: nat :| r < 0x1_0000_0000 && path.base == TempBase(r);
      var a := Answers(false, r, false, 0, false, false, false, false);
      assert TempPath(path.dir, r) == path;
      var run := RunSave(files, text, path, a);
      assert path !in Last(files, run);
      assert Possible(files, path, a) && !Atomic(files, text, path, a, run);
    }
  }

  /** What a successful Save leaves on disk loads back as the configuration that was saved. */
  lemma SavedLoadsBack(files: Files, c: Settings, path: Path, a: Answers)
    requires Possible(files, path, a) && (path in files || !LooksTemporary(path)) && Printable(c)
    requires NothingFails(a)
    ensures var end := Last(files, RunSave(files, PrintSettings(c), path, a));
            path in end && Parse(end[path].data, DEFAULTS) == Accepted(State("luks", c))
  {
    SaveAtomic(files, PrintSettings(c), path);
    var run := RunSave(files, PrintSettings(c), path, a);
    assert Atomic(files, PrintSettings(c), path, a, run);
    ParsePrinted(c, DEFAULTS);
  }
}
