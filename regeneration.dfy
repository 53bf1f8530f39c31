/** What the two auto-updaters (Python/auto_update.py and Python/auto_update_configurable.py)
    share: the hash of a watched file, the change test of a poll, the outcome of a generator
    script, and the order of the regeneration steps.

    The file contents, MD5, the clock and the subprocesses are not modelled: a watched file is
    its digest or missing, and the outcome of every script and of the PDF compilation is an
    input. */
module Regeneration {
  import opened Wrappers

  /** An MD5 hex digest: 32 characters. */
  type Digest = d: string | |d| == 32 witness "d41d8cd98f00b204e9800998ecf8427e"

  /** A watched file: missing, or present with the digest of its bytes. */
  datatype FileState = Missing | Present(digest: Digest)

  /** `get_file_hash`: the digest of a present file, and "" for a missing one. */
  function FileHash(f: FileState): (h: string)
    ensures h == "" <==> f.Missing?
  {
    match f
    case Missing => ""
    case Present(d) => d
  }

  /** One change test: whether the current hash differs from the stored one, and the stored
      hash afterwards (the current one when it differs, the old one otherwise). */
  function Poll(last: string, file: FileState): (bool, string) {
    var current := FileHash(file);
    if current != last then (true, current) else (false, last)
  }

  /** The answers of successive polls of one file, starting from the stored hash `last`. */
  function Polls(last: string, files: seq<FileState>): (r: seq<bool>)
    ensures |r| == |files|
    decreases |files|
  {
    if files == [] then [] else [Poll(last, files[0]).0] + Polls(Poll(last, files[0]).1, files[1..])
  }

  /** After a poll the stored hash is the current one, and polling again with no change in
      between answers no change. */
  lemma {:induction false} RepeatPollQuiet(last: string, file: FileState)
    ensures Poll(last, file).1 == FileHash(file)
    ensures Poll(last, file).0 <==> FileHash(file) != last
    ensures !Poll(Poll(last, file).1, file).0
  {
  }

  /** The `k`-th poll reports a change exactly when the file's hash differs from its hash at
      the poll before (or from the initial stored hash for the first poll). */
  lemma {:induction false} PollsSpec(last: string, files: seq<FileState>)
    ensures forall k :: 0 <= k < |files| ==>
      (Polls(last, files)[k] <==> FileHash(files[k]) != if k == 0 then last else FileHash(files[k - 1]))
    decreases |files|
  {
    if files != [] {
      var next := Poll(last, files[0]).1;
      assert next == FileHash(files[0]);
      PollsSpec(next, files[1..]);
      forall k | 1 <= k < |files|
        ensures Polls(last, files)[k] <==> FileHash(files[k]) != FileHash(files[k - 1])
      {
        assert Polls(last, files)[k] == Polls(next, files[1..])[k - 1];
        assert files[1..][k - 1] == files[k];
        if k > 1 {
          assert files[1..][k - 2] == files[k - 1];
        }
      }
      assert Polls(last, files)[0] == Poll(last, files[0]).0;
    }
  }

  /** A file present with digest `d` for `before` polls, then deleted for `after` polls, starting
      from the stored hash `d`: the deletion is reported exactly once, at the first poll after
      it, and nothing else is. */
  lemma {:induction false} DeletionReportedOnce(d: Digest, before: nat, after: nat)
    ensures var files := seq(before, _ => Present(d)) + seq(after, _ => Missing);
      forall k :: 0 <= k < |files| ==> (Polls(d, files)[k] <==> k == before)
  {
    var files := seq(before, _ => Present(d)) + seq(after, _ => Missing);
    PollsSpec(d, files);
    forall k | 0 <= k < |files| ensures Polls(d, files)[k] <==> k == before {
      assert |d| == 32;
      if k < before {
        assert files[k] == Present(d);
        if k > 0 {
          assert files[k - 1] == Present(d);
        }
      } else {
        assert files[k] == Missing;
        if k > before {
          assert files[k - 1] == Missing;
        } else if k > 0 {
          assert files[k - 1] == Present(d);
        }
      }
    }
  }

  /** The result of `subprocess.run` for a script: it exited with a return code and its
      output, it timed out, or it could not be started. */
  datatype ScriptRun = Exited(returncode: int, stdout: string, stderr: string) | TimedOut | Crashed

  /** `run_script` reports success exactly when the script exited with return code 0. */
  predicate Succeeded(r: ScriptRun) {
    r.Exited? && r.returncode == 0
  }

  /** The outcome of every script by name, and of the PDF compilation. */
  datatype Environment = Environment(run: string -> ScriptRun, pdf: bool)

  /** An external step of a regeneration. */
  datatype Step = Script(name: string) | CompilePdf

  /** What `update_files` did: the steps in order, the outcome of each, and whether it
      announced that all files were updated. */
  datatype Outcome = Outcome(steps: seq<Step>, htmlOk: bool, latexOk: bool, pdfOk: Option<bool>, allOk: bool)

  /** `update_files`: the HTML script, then the LaTeX script, then the PDF compilation only when
      the LaTeX script succeeded; success is announced when both scripts succeeded. */
  function Regenerate(htmlScript: string, latexScript: string, env: Environment): Outcome {
    var htmlOk := Succeeded(env.run(htmlScript));
    var latexOk := Succeeded(env.run(latexScript));
    Outcome(
      [Script(htmlScript), Script(latexScript)] + (if latexOk then [CompilePdf] else []),
      htmlOk, latexOk,
      if latexOk then Some(env.pdf) else None,
      htmlOk && latexOk)
  }

  /** Both scripts always run, HTML first; the PDF is compiled exactly when the LaTeX script
      succeeded, and only after it; success is announced exactly when both scripts succeeded. */
  lemma {:induction false} RegenerateSpec(htmlScript: string, latexScript: string, env: Environment)
    ensures var o := Regenerate(htmlScript, latexScript, env);
      |o.steps| >= 2 && o.steps[0] == Script(htmlScript) && o.steps[1] == Script(latexScript)
      && (CompilePdf in o.steps <==> Succeeded(env.run(latexScript)))
      && (CompilePdf in o.steps ==> o.steps[|o.steps| - 1] == CompilePdf)
      && (o.allOk <==> Succeeded(env.run(htmlScript)) && Succeeded(env.run(latexScript)))
  {
    var o := Regenerate(htmlScript, latexScript, env);
    if CompilePdf in o.steps {
      assert o.steps[0] != CompilePdf && o.steps[1] != CompilePdf;
    }
  }

  /** A failed PDF compilation does not change the announcement: the outcome differs only in
      the recorded PDF result. */
  lemma {:induction false} RegenerateIgnoresPdf(htmlScript: string, latexScript: string, env: Environment, pdf: bool)
    ensures Regenerate(htmlScript, latexScript, env.(pdf := pdf)).allOk == Regenerate(htmlScript, latexScript, env).allOk
    ensures Regenerate(htmlScript, latexScript, env.(pdf := pdf)).steps == Regenerate(htmlScript, latexScript, env).steps
    ensures Regenerate(htmlScript, latexScript, env).pdfOk == if Succeeded(env.run(latexScript)) then Some(env.pdf) else None
  {
  }
}
