/** `AutoUpdater` of Python/auto_update.py (auto_update.py is a verbatim copy): remembers the
    hash of the CV data file, tells on each poll whether the file changed since the last poll,
    and regenerates the HTML pages, the LaTeX CV and its PDF.

    The file system, MD5, the clock and the subprocesses are inputs: a poll is given the state
    of the data file, a regeneration the outcome of each script and of the PDF compilation, and
    `now` stands for `datetime.now()`. The watch loop, its sleeping and the printed messages are
    not modelled. */
module AutoUpdater {
  import opened Wrappers
  import opened Regeneration

  const HtmlScript: string := "generate_html.py"
  const LatexScript: string := "generate_cv.py"

  class AutoUpdater {
    const dataFile: string
    var lastHash: string
    var lastUpdate: int

    /** The stored hash starts as the hash of the data file at construction. */
    constructor(dataFile: string, data: FileState, now: int)
      ensures this.dataFile == dataFile
      ensures lastHash == FileHash(data) && lastUpdate == now
    {
      this.dataFile := dataFile;
      lastHash := FileHash(data);
      lastUpdate := now;
    }

    /** `file_changed`: a change is reported exactly when the current hash differs from the
        stored one, and the stored hash becomes the current one. */
    method FileChanged(data: FileState) returns (changed: bool)
      modifies this
      ensures changed <==> FileHash(data) != old(lastHash)
      ensures lastHash == FileHash(data)
      ensures (changed, lastHash) == Poll(old(lastHash), data)
      ensures lastUpdate == old(lastUpdate)
    {
      var current := FileHash(data);
      if current != lastHash {
        lastHash := current;
        return true;
      }
      return false;
    }

    /** `update_files`: runs the two scripts, compiles the PDF only after the LaTeX script
        succeeded, and records the time; the stored hash is not touched. */
    method UpdateFiles(env: Environment, now: int) returns (outcome: Outcome)
      modifies this
      ensures outcome == Regenerate(HtmlScript, LatexScript, env)
      ensures lastHash == old(lastHash) && lastUpdate == now
    {
      var htmlOk := Succeeded(env.run(HtmlScript));
      var steps := [Script(HtmlScript)];
      var latexOk := Succeeded(env.run(LatexScript));
      steps := steps + [Script(LatexScript)];
      var pdfOk: Option<bool> := None;
      if latexOk {
        steps := steps + [CompilePdf];
        pdfOk := Some(env.pdf);
      }
      outcome := Outcome(steps, htmlOk, latexOk, pdfOk, htmlOk && latexOk);
      lastUpdate := now;
    }

    /** `force_update`: a regeneration whatever the hashes, leaving the stored hash alone. */
    method ForceUpdate(env: Environment, now: int) returns (outcome: Outcome)
      modifies this
      ensures outcome == Regenerate(HtmlScript, LatexScript, env)
      ensures lastHash == old(lastHash) && lastUpdate == now
    {
      outcome := UpdateFiles(env, now);
    }
  }
}
