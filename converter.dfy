/** The static page's Word-to-PDF button: it checks that a file is chosen, shows a
    spinner, and after a delay offers a placeholder link named after the file with
    its extension replaced by `.pdf`. Timers are modelled as a queue of pending
    callbacks fired in order; styles are not modelled. */
module Converter {
  import opened Text
  import opened Protocol

  predicate Plain(c: char) {
    c != '.' && c != '/'
  }

  /** The length of the longest tail of `s` without `.` or `/`. */
  function PlainTailLength(s: string): (t: nat)
    ensures t <= |s|
    ensures forall i :: |s| - t <= i < |s| ==> Plain(s[i])
    ensures t < |s| ==> !Plain(s[|s| - t - 1])
  {
    if s == [] || !Plain(s[|s| - 1]) then 0 else PlainTailLength(s[..|s| - 1]) + 1
  }

  /** `name.replace(/\.[^/.]+$/, "")`: a final `.` followed by at least one
      character, none of them `.` or `/`, is cut off with everything after it;
      any other name is kept. */
  function StripExtension(s: string): (r: string)
    ensures StartsWith(s, r)
    ensures r != s <==> exists d :: 0 <= d < |s| - 1 && s[d] == '.' && forall i :: d < i < |s| ==> Plain(s[i])
    ensures r != s ==> |r| < |s| - 1 && s[|r|] == '.' && forall i :: |r| < i < |s| ==> Plain(s[i])
  {
    var t := PlainTailLength(s);
    if 1 <= t < |s| && s[|s| - t - 1] == '.' then s[..|s| - t - 1] else s
  }

  /** The name the placeholder link downloads as. */
  function PdfFileName(name: string): (r: string)
    ensures EndsWith(r, ".pdf")
    ensures StartsWith(name, r[..|r| - 4])
  {
    EndsWithAppended(StripExtension(name), ".pdf");
    assert (StripExtension(name) + ".pdf")[..|StripExtension(name) + ".pdf"| - 4] == StripExtension(name);
    StripExtension(name) + ".pdf"
  }

  /** Exactly the last extension goes: `base.ext` loses `.ext` whenever `ext` is
      non-empty and has no `.` or `/`, whatever `base` is. */
  lemma StripExtensionOfNamed(base: string, ext: string)
    requires ext != "" && forall i :: 0 <= i < |ext| ==> Plain(ext[i])
    ensures StripExtension(base + "." + ext) == base
  {
    var s := base + "." + ext;
    assert s[|base|] == '.';
    assert forall i :: |base| < i < |s| ==> s[i] == ext[i - |base| - 1];
    var r := StripExtension(s);
    assert |r| == |base|;
    assert s[..|base|] == base;
  }

  /** Naming is idempotent: a name that already ends in `.pdf` keeps it. */
  lemma PdfFileNameIdempotent(name: string)
    ensures PdfFileName(PdfFileName(name)) == PdfFileName(name)
  {
    var r := StripExtension(name);
    StripExtensionOfNamed(r, "pdf");
    assert r + "." + "pdf" == r + ".pdf";
  }

  /** The last extension goes and earlier dots stay; a leading dot counts as an
      extension too. */
  lemma PdfFileNameKeepsEarlierDots()
    ensures PdfFileName("a.b.docx") == "a.b.pdf"
    ensures PdfFileName(".docx") == ".pdf"
  {
    StripExtensionOfNamed("a.b", "docx");
    assert "a.b" + "." + "docx" == "a.b.docx";
    StripExtensionOfNamed("", "docx");
    assert "" + "." + "docx" == ".docx";
  }

  /** A name without a dot just gains `.pdf`. */
  lemma PdfFileNameWithoutDot(name: string)
    requires '.' !in name
    ensures PdfFileName(name) == name + ".pdf"
  {
  }

  /** A dot at the very end is not an extension: it is kept. */
  lemma PdfFileNameTrailingDot(base: string)
    ensures PdfFileName(base + ".") == base + "..pdf"
  {
    var s := base + ".";
    assert !Plain(s[|s| - 1]);
  }

  const WarningHtml := "<p style='color:red; font-weight:600;'>⚠ Please select a Word file first!</p>"

  /** What the result area holds: the warning markup, or a download link. */
  datatype ResultNode =
    | Markup(html: string)
    | Link(href: string, download: string, text: string, cssClass: string)

  /** The link the delayed callback adds for a file name. */
  function DownloadLink(name: string): (l: ResultNode)
    ensures l.Link? && EndsWith(l.download, ".pdf") && l.href == "#"
    ensures l.download == PdfFileName(name) && l.text == "⬇ Download " + l.download
    ensures EndsWith(l.text, l.download) && l.cssClass == "download-link"
  {
    EndsWithAppended("⬇ Download ", PdfFileName(name));
    Link("#", PdfFileName(name), "⬇ Download " + PdfFileName(name), "download-link")
  }

  /** `n` copies of `name`. */
  function Copies(name: string, n: nat): (r: seq<string>)
    ensures |r| == n && forall i :: 0 <= i < n ==> r[i] == name
  {
    if n == 0 then [] else Copies(name, n - 1) + [name]
  }

  /** The page's state: which of the four elements exist, how many click
      handlers are installed, the spinner, the result area's children and the
      file names of the conversions whose timers are pending, oldest first. */
  class ConverterPage {
    var hasButton: bool
    var hasFileInput: bool
    var hasSpinner: bool
    var hasResult: bool
    var listeners: nat
    var spinnerShown: bool
    var result: seq<ResultNode>
    var pending: seq<string>

    constructor (button: bool, fileInput: bool, spinner: bool, resultArea: bool)
      ensures hasButton == button && hasFileInput == fileInput && hasSpinner == spinner && hasResult == resultArea
      ensures listeners == 0 && !spinnerShown && result == [] && pending == []
    {
      hasButton, hasFileInput, hasSpinner, hasResult := button, fileInput, spinner, resultArea;
      listeners, spinnerShown := 0, false;
      result, pending := [], [];
    }

    /** `handleConversion()`: installs one more click handler when all four
        elements are on the page; a second call installs a second handler. */
    method HandleConversion()
      modifies this
      ensures listeners == old(listeners) + (if hasButton && hasFileInput && hasSpinner && hasResult then 1 else 0)
      ensures hasButton == old(hasButton) && hasFileInput == old(hasFileInput)
      ensures hasSpinner == old(hasSpinner) && hasResult == old(hasResult)
      ensures spinnerShown == old(spinnerShown) && result == old(result) && pending == old(pending)
    {
      if !hasButton || !hasFileInput || !hasSpinner || !hasResult {
        return;
      }
      listeners := listeners + 1;
    }

    /** A click on the button with the input's first file, if any; every
        installed handler runs. Without a file the result area shows the
        warning; with one the spinner shows, the result area empties and each
        handler schedules one conversion. */
    method Click(selected: Option<File>)
      modifies this
      ensures listeners == 0 ==> spinnerShown == old(spinnerShown) && result == old(result) && pending == old(pending)
      ensures listeners > 0 && selected.None? ==>
        result == [Markup(WarningHtml)] && spinnerShown == old(spinnerShown) && pending == old(pending)
      ensures listeners > 0 && selected.Some? ==>
        spinnerShown && result == [] && pending == old(pending) + Copies(selected.value.name, listeners)
      ensures listeners == old(listeners)
      ensures hasButton == old(hasButton) && hasFileInput == old(hasFileInput)
      ensures hasSpinner == old(hasSpinner) && hasResult == old(hasResult)
    {
      if listeners == 0 {
        return;
      }
      if selected.None? {
        result := [Markup(WarningHtml)];
        return;
      }
      spinnerShown := true;
      result := [];
      pending := pending + Copies(selected.value.name, listeners);
    }

    /** The oldest pending timer fires: the spinner hides and a link for that
        file is appended to the result area. */
    method TimerFires()
      requires pending != []
      modifies this
      ensures !spinnerShown
      ensures result == old(result) + [DownloadLink(old(pending)[0])]
      ensures pending == old(pending)[1..]
      ensures listeners == old(listeners)
      ensures hasButton == old(hasButton) && hasFileInput == old(hasFileInput)
      ensures hasSpinner == old(hasSpinner) && hasResult == old(hasResult)
    {
      var name := pending[0];
      spinnerShown := false;
      result := result + [DownloadLink(name)];
      pending := pending[1..];
    }
  }

  /** With one handler installed and no conversion pending, choosing a file and
      waiting leaves exactly one link in the result area, named after that file,
      and the spinner hidden. */
  method ConvertOnce(page: ConverterPage, f: File)
    requires page.listeners == 1 && page.pending == []
    modifies page
    ensures page.result == [DownloadLink(f.name)]
    ensures !page.spinnerShown && page.pending == []
  {
    page.Click(Some(f));
    page.TimerFires();
  }

  /** After `handleConversion` has run twice on a complete page, one click with
      a file leaves two links for that file once both timers have fired. */
  method ConvertAfterTwoSetups(page: ConverterPage, f: File)
    requires page.hasButton && page.hasFileInput && page.hasSpinner && page.hasResult
    requires page.listeners == 0 && page.pending == []
    modifies page
    ensures page.result == [DownloadLink(f.name), DownloadLink(f.name)]
    ensures !page.spinnerShown && page.pending == []
  {
    page.HandleConversion();
    page.HandleConversion();
    page.Click(Some(f));
    page.TimerFires();
    page.TimerFires();
  }
}
