/** `ConfigurableAutoUpdater` of Python/auto_update_configurable.py (auto_update_configurable.py
    is a verbatim copy): watches the CV data file and the CV configuration file, names the ones
    that changed since the last poll, echoes the important output lines of the generator
    scripts, and regenerates the HTML pages, the configurable LaTeX CV and its PDF.

    As for the plain updater, file states, script outcomes and `now` are inputs; the watch loop,
    `show_current_config` and the printed messages are not modelled, except the lines that
    `run_script` echoes and the list of changed files that `update_files` announces. */
module ConfigurableAutoUpdater {
  import opened Wrappers
  import opened Text
  import opened Seqs
  import opened Regeneration

  const HtmlScript: string := "generate_html.py"
  const LatexScript: string := "generate_cv_configurable.py"

  /** The markers of the output lines worth echoing: check mark, cross, warning sign (with its
      variation selector), clipboard and light bulb. */
  const Markers: seq<string> := ["\U{2705}", "\U{274C}", "\U{26A0}\U{FE0F}", "\U{1F4CB}", "\U{1F4A1}"]

  predicate Marked(line: string) {
    AnyIn(line, Markers)
  }

  /** The lines `run_script` echoes for a successful run: the lines of the stripped output that
      hold a marker, in order. Nothing is echoed for a failed run or an empty output. */
  function Echoed(run: ScriptRun): seq<string> {
    if Succeeded(run) && run.stdout != "" then Filter(Split(Strip(run.stdout), '\n'), Marked) else []
  }

  /** The echoed lines are output lines in their original order, each holds a marker, and every
      output line holding a marker is echoed. */
  lemma {:induction false} EchoedSpec(run: ScriptRun)
    ensures Succeeded(run) && run.stdout != "" ==>
      var lines := Split(Strip(run.stdout), '\n');
      IsSubseq(Echoed(run), lines) && forall line :: line in lines ==> (line in Echoed(run) <==> Marked(line))
    ensures !Succeeded(run) ==> Echoed(run) == []
  {
    if Succeeded(run) && run.stdout != "" {
      FilterSpec(Split(Strip(run.stdout), '\n'), Marked);
    }
  }

  /** The files named by `files_changed`: the data file when its hash changed, then the
      configuration file when its hash changed. */
  function ChangedFiles(dataFile: string, configFile: string, lastData: string, lastConfig: string,
                        data: FileState, config: FileState): seq<string> {
    (if Poll(lastData, data).0 then [dataFile] else []) + (if Poll(lastConfig, config).0 then [configFile] else [])
  }

  /** The two change flags are independent, and the data file comes first: the list is a
      subsequence of [data file, configuration file]. */
  lemma {:induction false} ChangedFilesSpec(dataFile: string, configFile: string, lastData: string, lastConfig: string,
                         data: FileState, config: FileState)
    requires dataFile != configFile
    ensures var changed := ChangedFiles(dataFile, configFile, lastData, lastConfig, data, config);
      (dataFile in changed <==> FileHash(data) != lastData)
      && (configFile in changed <==> FileHash(config) != lastConfig)
      && IsSubseq(changed, [dataFile, configFile])
  {
    var changed := ChangedFiles(dataFile, configFile, lastData, lastConfig, data, config);
    var both := [dataFile, configFile];
    if FileHash(data) != lastData && FileHash(config) != lastConfig {
      assert changed == both;
      SubseqRefl(both);
    } else if FileHash(data) != lastData {
      assert changed == [dataFile] && both == [dataFile] + [configFile];
      assert IsSubseq([], [configFile]);
    } else if FileHash(config) != lastConfig {
      assert changed == [configFile] && both[1..] == [configFile];
      SubseqRefl([configFile]);
      SubseqSkip(changed, [configFile], dataFile);
      assert [dataFile] + [configFile] == both;
    }
  }

  /** Polling again with no change in between names no file. */
  lemma {:induction false} RepeatCheckQuiet(dataFile: string, configFile: string, lastData: string, lastConfig: string,
                         data: FileState, config: FileState)
    ensures ChangedFiles(dataFile, configFile, Poll(lastData, data).1, Poll(lastConfig, config).1, data, config) == []
  {
    RepeatPollQuiet(lastData, data);
    RepeatPollQuiet(lastConfig, config);
  }

  class ConfigurableAutoUpdater {
    const dataFile: string
    const configFile: string
    var lastDataHash: string
    var lastConfigHash: string
    var lastUpdate: int

    /** Both stored hashes start as the hashes of the files at construction. */
    constructor(dataFile: string, configFile: string, data: FileState, config: FileState, now: int)
      ensures this.dataFile == dataFile && this.configFile == configFile
      ensures lastDataHash == FileHash(data) && lastConfigHash == FileHash(config) && lastUpdate == now
    {
      this.dataFile := dataFile;
      this.configFile := configFile;
      lastDataHash := FileHash(data);
      lastConfigHash := FileHash(config);
      lastUpdate := now;
    }

    /** `files_changed`: the changed files, data file first, and whether there are any; both
        stored hashes become the current ones. */
    method FilesChanged(data: FileState, config: FileState) returns (changed: bool, changedFiles: seq<string>)
      modifies this
      ensures changedFiles == ChangedFiles(dataFile, configFile, old(lastDataHash), old(lastConfigHash), data, config)
      ensures changed <==> changedFiles != []
      ensures lastDataHash == FileHash(data) && lastConfigHash == FileHash(config)
      ensures lastUpdate == old(lastUpdate)
    {
      changedFiles := [];
      var currentData := FileHash(data);
      if currentData != lastDataHash {
        lastDataHash := currentData;
        changedFiles := changedFiles + [dataFile];
      }
      var currentConfig := FileHash(config);
      if currentConfig != lastConfigHash {
        lastConfigHash := currentConfig;
        changedFiles := changedFiles + [configFile];
      }
      changed := |changedFiles| > 0;
    }

    /** `run_script`: success exactly when the script exited with code 0; the marked lines of
        its output are echoed one by one. */
    method RunScript(run: ScriptRun) returns (ok: bool, shown: seq<string>)
      ensures ok == Succeeded(run)
      ensures shown == Echoed(run)
    {
      shown := [];
      if run.Exited? && run.returncode == 0 {
        if run.stdout != "" {
          var lines := Split(Strip(run.stdout), '\n');
          var i := 0;
          while i < |lines|
            invariant 0 <= i <= |lines|
            invariant shown == Filter(lines[..i], Marked)
          {
            FilterSnoc(lines[..i], lines[i], Marked);
            assert lines[..i + 1] == lines[..i] + [lines[i]];
            if Marked(lines[i]) {
              shown := shown + [lines[i]];
            }
            i := i + 1;
          }
          assert lines[..i] == lines;
        }
        ok := true;
      } else {
        ok := false;
      }
    }

    /** `update_files`: announces the changed files joined with ", ", runs the two scripts
        (echoing their marked output lines), compiles the PDF only after the LaTeX script
        succeeded, and records the time; the stored hashes are not touched. */
    method UpdateFiles(changedFiles: seq<string>, env: Environment, now: int)
      returns (announced: string, shown: seq<string>, outcome: Outcome)
      modifies this
      ensures announced == Join(changedFiles, ", ")
      ensures shown == Echoed(env.run(HtmlScript)) + Echoed(env.run(LatexScript))
      ensures outcome == Regenerate(HtmlScript, LatexScript, env)
      ensures lastDataHash == old(lastDataHash) && lastConfigHash == old(lastConfigHash) && lastUpdate == now
    {
      announced := Join(changedFiles, ", ");
      var htmlOk, htmlShown := RunScript(env.run(HtmlScript));
      var steps := [Script(HtmlScript)];
      var latexOk, latexShown := RunScript(env.run(LatexScript));
      steps := steps + [Script(LatexScript)];
      shown := htmlShown + latexShown;
      var pdfOk: Option<bool> := None;
      if latexOk {
        steps := steps + [CompilePdf];
        pdfOk := Some(env.pdf);
      }
      outcome := Outcome(steps, htmlOk, latexOk, pdfOk, htmlOk && latexOk);
      lastUpdate := now;
    }

    /** `force_update`: a regeneration that names both files as changed, whatever the hashes. */
    method ForceUpdate(env: Environment, now: int) returns (announced: string, shown: seq<string>, outcome: Outcome)
      modifies this
      ensures announced == dataFile + ", " + configFile
      ensures shown == Echoed(env.run(HtmlScript)) + Echoed(env.run(LatexScript))
      ensures outcome == Regenerate(HtmlScript, LatexScript, env)
      ensures lastDataHash == old(lastDataHash) && lastConfigHash == old(lastConfigHash) && lastUpdate == now
    {
      announced, shown, outcome := UpdateFiles([dataFile, configFile], env, now);
      assert [dataFile, configFile][1..] == [configFile];
    }
  }
}
