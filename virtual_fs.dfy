/**
 * The virtual module cache: a map from absolute file path to the body the
 * server will answer with. A slot is `Pending` while its bundle is being
 * built, `Done` once a body is known and `Failed` when the build gave no
 * output. Slots are added and overwritten, never removed.
 */
module VirtualFs {

  datatype Entry = Pending | Done(text: string) | Failed

  datatype OutputFile = OutputFile(path: string, text: string)

  /** What the bundler returns for a dependency: its output files, or none at all. */
  datatype BuildResult = Built(outputFiles: seq<OutputFile>) | NoOutputFiles

  /** The cache after a registration step, and whether that step started a build. */
  datatype Registration = Registration(fs: map<string, Entry>, launched: bool)

  /** Every slot of `before` is still there, holding the same entry. */
  predicate Extends(before: map<string, Entry>, after: map<string, Entry>) {
    forall k | k in before :: k in after && after[k] == before[k]
  }

  /**
   * The registration as the source performs it once the package lookup has
   * returned: the slot is (over)written and a build is started, whatever the
   * cache holds by then.
   */
  function RegisterAsWritten(fs: map<string, Entry>, resolved: string): (r: Registration)
    ensures r.launched && resolved in r.fs && r.fs[resolved] == Pending
    ensures r.fs.Keys == fs.Keys + {resolved}
    ensures forall k | k in fs && k != resolved :: r.fs[k] == fs[k]
  {
    Registration(fs[resolved := Pending], true)
  }

  /**
   * Registration that checks the cache again when it runs: a build is started
   * and a pending slot added only when no slot for `resolved` exists; an
   * existing slot is left alone.
   */
  function Register(fs: map<string, Entry>, resolved: string): (r: Registration)
    ensures r.launched <==> resolved !in fs
    ensures resolved in r.fs && Extends(fs, r.fs)
    ensures r.fs.Keys == fs.Keys + {resolved}
    ensures r.launched ==> r.fs[resolved] == Pending
  {
    if resolved in fs then Registration(fs, false) else Registration(fs[resolved := Pending], true)
  }

  /** With the check repeated at registration, a second registration of a path never builds. */
  lemma RegisterIsSingleFlight(fs: map<string, Entry>, resolved: string)
    ensures var first := Register(fs, resolved);
      && !Register(first.fs, resolved).launched
      && Register(first.fs, resolved).fs == first.fs
  {
  }

  /** The cache after the build's output files are written in order (the later of two equal paths wins). */
  function Publish(fs: map<string, Entry>, files: seq<OutputFile>): map<string, Entry>
    decreases |files|
  {
    if files == [] then fs
    else
      var last := files[|files| - 1];
      Publish(fs, files[..|files| - 1])[last.path := Done(last.text)]
  }

  /** The paths a build wrote. */
  function OutputPaths(files: seq<OutputFile>): set<string> {
    set i | 0 <= i < |files| :: files[i].path
  }

  /** No output file after the `i`-th has its path. */
  predicate LastWith(files: seq<OutputFile>, i: int)
    requires 0 <= i < |files|
  {
    forall j | i < j < |files| :: files[j].path != files[i].path
  }

  /** Publishing adds exactly the output paths. */
  lemma {:induction false} PublishKeys(fs: map<string, Entry>, files: seq<OutputFile>)
    ensures Publish(fs, files).Keys == fs.Keys + OutputPaths(files)
    decreases |files|
  {
    if files != [] {
      var init := files[..|files| - 1];
      PublishKeys(fs, init);
      assert OutputPaths(files) == OutputPaths(init) + {files[|files| - 1].path} by {
        forall p | p in OutputPaths(files) ensures p in OutputPaths(init) + {files[|files| - 1].path} {
          var i :| 0 <= i < |files| && files[i].path == p;
          if i < |files| - 1 { assert init[i] == files[i]; }
        }
        forall p | p in OutputPaths(init) ensures p in OutputPaths(files) {
          var i :| 0 <= i < |init| && init[i].path == p;
          assert files[i] == init[i];
        }
      }
    }
  }

  /** Every output path is served with the text of the last output file of that path. */
  lemma {:induction false} PublishOutput(fs: map<string, Entry>, files: seq<OutputFile>, i: int)
    requires 0 <= i < |files| && LastWith(files, i)
    ensures files[i].path in Publish(fs, files)
    ensures Publish(fs, files)[files[i].path] == Done(files[i].text)
    decreases |files|
  {
    if i < |files| - 1 {
      var init := files[..|files| - 1];
      assert init[i] == files[i];
      forall j | i < j < |init| ensures init[j].path != init[i].path {
        assert init[j] == files[j];
      }
      PublishOutput(fs, init, i);
    }
  }

  /** A path no output file has keeps its slot, or its absence. */
  lemma {:induction false} PublishOther(fs: map<string, Entry>, files: seq<OutputFile>, p: string)
    requires forall i | 0 <= i < |files| :: files[i].path != p
    ensures p in Publish(fs, files) <==> p in fs
    ensures p in fs ==> Publish(fs, files)[p] == fs[p]
    decreases |files|
  {
    if files != [] {
      var init := files[..|files| - 1];
      forall i | 0 <= i < |init| ensures init[i].path != p {
        assert init[i] == files[i];
      }
      PublishOther(fs, init, p);
    }
  }

  /** Publishing never removes a slot. */
  lemma PublishKeepsSlots(fs: map<string, Entry>, files: seq<OutputFile>)
    ensures fs.Keys <= Publish(fs, files).Keys
  {
    PublishKeys(fs, files);
  }

  /** `PublishOutput` for every output file at once. */
  lemma PublishOutputs(fs: map<string, Entry>, files: seq<OutputFile>)
    ensures forall i | 0 <= i < |files| && LastWith(files, i) ::
      files[i].path in Publish(fs, files) && Publish(fs, files)[files[i].path] == Done(files[i].text)
  {
    forall i | 0 <= i < |files| && LastWith(files, i)
      ensures files[i].path in Publish(fs, files) && Publish(fs, files)[files[i].path] == Done(files[i].text)
    {
      PublishOutput(fs, files, i);
    }
  }

  /** Every output path ends up holding a body. */
  lemma {:induction false} PublishDone(fs: map<string, Entry>, files: seq<OutputFile>)
    ensures forall p | p in OutputPaths(files) :: p in Publish(fs, files) && Publish(fs, files)[p].Done?
    decreases |files|
  {
    if files != [] {
      var init := files[..|files| - 1];
      PublishDone(fs, init);
      forall p | p in OutputPaths(files) ensures p in Publish(fs, files) && Publish(fs, files)[p].Done? {
        var i :| 0 <= i < |files| && files[i].path == p;
        if i < |files| - 1 && p != files[|files| - 1].path {
          assert init[i] == files[i];
          assert p in OutputPaths(init);
        }
      }
    }
  }

  /** `PublishOther` for every path at once. */
  lemma PublishOthers(fs: map<string, Entry>, files: seq<OutputFile>)
    ensures forall p | p !in OutputPaths(files) :: (p in Publish(fs, files) <==> p in fs)
    ensures forall p | p in fs && p !in OutputPaths(files) :: Publish(fs, files)[p] == fs[p]
  {
    forall p | p !in OutputPaths(files)
      ensures (p in Publish(fs, files) <==> p in fs) && (p in fs ==> Publish(fs, files)[p] == fs[p])
    {
      forall i | 0 <= i < |files| ensures files[i].path != p {
        assert files[i].path in OutputPaths(files);
      }
      PublishOther(fs, files, p);
    }
  }

  /** The files a build wrote: none when it returned no output files. */
  function Outputs(result: BuildResult): seq<OutputFile> {
    if result.Built? then result.outputFiles else []
  }

  /**
   * The completion of a build of `resolved`: every output file is published
   * in order. The promise held in the slot of `resolved` then settles with
   * that slot's own value, so when no output file has the resolved path (or
   * there are no output files at all) a still-pending slot settles with
   * itself, which is a rejection: it ends up `Failed`.
   */
  function Complete(fs: map<string, Entry>, resolved: string, result: BuildResult): (r: map<string, Entry>)
    ensures r.Keys == fs.Keys + OutputPaths(Outputs(result))
    ensures forall p | p in OutputPaths(Outputs(result)) :: r[p].Done?
    ensures forall i | 0 <= i < |Outputs(result)| && LastWith(Outputs(result), i) ::
      r[Outputs(result)[i].path] == Done(Outputs(result)[i].text)
    ensures resolved in fs && fs[resolved].Pending? && resolved !in OutputPaths(Outputs(result)) ==>
      r[resolved] == Failed
    ensures forall k | k in fs && k !in OutputPaths(Outputs(result)) && k != resolved :: r[k] == fs[k]
    ensures resolved in fs && !fs[resolved].Pending? && resolved !in OutputPaths(Outputs(result)) ==>
      r[resolved] == fs[resolved]
  {
    var files := Outputs(result);
    PublishKeys(fs, files);
    PublishDone(fs, files);
    PublishOthers(fs, files);
    PublishOutputs(fs, files);
    var published := Publish(fs, files);
    if resolved in fs && fs[resolved].Pending? && resolved !in OutputPaths(files) then published[resolved := Failed]
    else published
  }
}
