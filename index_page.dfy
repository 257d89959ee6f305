/**
 * The converter page (src/pages/Index.tsx): the selected file, the options, the figure
 * list and the processing step, changed by the page's handlers; the caption update the
 * figure panel calls back into; and which action button the page offers.
 */
module IndexPage {
  import opened Wrappers
  import opened FormatOptions
  import opened FiguresList
  import opened ProcessingStatus

  /** `defaultOptions`: Times New Roman, 12pt, spacing 1.5, ABNT margins, all toggles on. */
  const DefaultOptions: AbntOptions := AbntOptions("Times New Roman", "12pt", "1.5", "abnt", true, true, true)

  /** `mockFigures`: the figure list every selected file is given. */
  const MockFigures: seq<Figure> := [
    Figure(1, "Screenshot do sistema", "img001.png"),
    Figure(2, "Diagrama de fluxo", "img002.png"),
    Figure(3, "Gráfico de resultados", "img003.png")
  ]

  /** The steps `handleConvert` walks through, in order. */
  const ConvertSteps: seq<ProcessingStep> := [Reading, Detecting, Formatting, Generating, Complete]

  /**
   * The defaults are values the panel offers, with every toggle on; the mock figures are
   * numbered 1, 2, 3 by position and have distinct ids; and the convert steps are the
   * order the progress panel ranks steps by.
   */
  lemma InitialDataProperties()
    ensures Recognised(DefaultOptions)
    ensures DefaultOptions.autoCaptions && DefaultOptions.pageNumbers && DefaultOptions.headerFooter
    ensures UniqueIds(MockFigures)
    ensures forall i :: 0 <= i < |MockFigures| ==> MockFigures[i].id == i + 1
    ensures ConvertSteps == StepOrder
    ensures forall i :: 0 <= i < |ConvertSteps| ==> Rank(ConvertSteps[i]) == i
  {
  }

  /** One figure after `fig.id === id ? { ...fig, name: caption } : fig`. */
  function Relabel(f: Figure, id: int, caption: string): (r: Figure)
    ensures r.id == f.id && r.originalName == f.originalName
    ensures r.name == if f.id == id then caption else f.name
  {
    if f.id == id then f.(name := caption) else f
  }

  /**
   * `updateFigureCaption`'s `prev.map(...)`: the figures whose id is `id` take the new
   * name; ids, original names, order and length are kept, and every other figure is untouched.
   */
  function WithCaption(figs: seq<Figure>, id: int, caption: string): (r: seq<Figure>)
    ensures |r| == |figs|
    ensures forall i :: 0 <= i < |figs| ==> r[i].id == figs[i].id && r[i].originalName == figs[i].originalName
    ensures forall i :: 0 <= i < |figs| ==> r[i].name == if figs[i].id == id then caption else figs[i].name
    decreases |figs|
  {
    if figs == [] then [] else [Relabel(figs[0], id, caption)] + WithCaption(figs[1..], id, caption)
  }

  /** An update for an id no figure has leaves the list as it is. */
  lemma WithCaptionAbsentId(figs: seq<Figure>, id: int, caption: string)
    requires forall i :: 0 <= i < |figs| ==> figs[i].id != id
    ensures WithCaption(figs, id, caption) == figs
  {
    var r := WithCaption(figs, id, caption);
    assert forall i :: 0 <= i < |figs| ==> r[i] == figs[i];
  }

  /** Applying the same update twice is the same as applying it once. */
  lemma WithCaptionIdempotent(figs: seq<Figure>, id: int, caption: string)
    ensures WithCaption(WithCaption(figs, id, caption), id, caption) == WithCaption(figs, id, caption)
  {
    var r := WithCaption(figs, id, caption);
    var rr := WithCaption(r, id, caption);
    assert forall i :: 0 <= i < |figs| ==> rr[i] == r[i];
  }

  /** Updates of two different ids can be applied in either order. */
  lemma WithCaptionCommutes(figs: seq<Figure>, id1: int, c1: string, id2: int, c2: string)
    requires id1 != id2
    ensures WithCaption(WithCaption(figs, id1, c1), id2, c2) == WithCaption(WithCaption(figs, id2, c2), id1, c1)
  {
    var a := WithCaption(WithCaption(figs, id1, c1), id2, c2);
    var b := WithCaption(WithCaption(figs, id2, c2), id1, c1);
    assert forall i :: 0 <= i < |figs| ==> a[i] == b[i];
  }

  /**
   * With distinct ids, giving a figure back its own name changes nothing: starting an edit
   * and saving it without typing leaves the figure list as it was.
   */
  lemma SaveOwnNameIsIdentity(figs: seq<Figure>, k: nat)
    requires UniqueIds(figs) && k < |figs|
    ensures WithCaption(figs, figs[k].id, figs[k].name) == figs
  {
    var r := WithCaption(figs, figs[k].id, figs[k].name);
    forall i | 0 <= i < |figs| ensures r[i] == figs[i] {
      if i != k {
        assert figs[i].id != figs[k].id by {
          if i < k { assert figs[i].id != figs[k].id; } else { assert figs[k].id != figs[i].id; }
        }
      }
    }
  }

  /** The action button under the options panel. */
  datatype Action = ConvertButton | DownloadButton | NoButton

  /** Convert is offered exactly while idle, download exactly once complete, neither in between. */
  function ActionFor(step: ProcessingStep): (a: Action)
    ensures a == ConvertButton <==> step == Idle
    ensures a == DownloadButton <==> step == Complete
    ensures a == NoButton <==> step != Idle && step != Complete
  {
    if step == Idle then ConvertButton
    else if step == Complete then DownloadButton
    else NoButton
  }

  /** The selected Word file; only its name is used. */
  datatype SelectedFile = SelectedFile(name: string)

  /** The page's state and its handlers. */
  class Page {
    var selectedFile: Option<SelectedFile>
    var options: AbntOptions
    var figures: seq<Figure>
    var processingStep: ProcessingStep
    /** Every step the page has been set to, oldest first. */
    ghost var shownSteps: seq<ProcessingStep>

    /** Without a file there are no figures, and figure ids never repeat. */
    ghost predicate Valid()
      reads this
    {
      && (selectedFile.None? ==> figures == [])
      && UniqueIds(figures)
    }

    /** The initial state: no file, default options, no figures, idle. */
    constructor ()
      ensures Valid()
      ensures selectedFile == None && options == DefaultOptions && figures == [] && processingStep == Idle
      ensures shownSteps == []
    {
      selectedFile := None;
      options := DefaultOptions;
      figures := [];
      processingStep := Idle;
      shownSteps := [];
    }

    /** The buttons under the options, which the page shows only once a file is selected. */
    function Action(): (a: Action)
      reads this
      ensures selectedFile.None? ==> a == NoButton
      ensures selectedFile.Some? ==> a == ActionFor(processingStep)
    {
      if selectedFile.None? then NoButton else ActionFor(processingStep)
    }

    /** The progress panel is shown with a file selected and a step other than idle. */
    predicate ShowsProgress()
      reads this
      ensures ShowsProgress() <==> selectedFile.Some? && ProcessingStatus.Render(processingStep).Some?
      ensures ShowsProgress() ==> Action() != ConvertButton
    {
      selectedFile.Some? && processingStep != Idle
    }

    /** `handleFileSelect`: any file is taken, and the figures become the mock list, dropping earlier edits. */
    method HandleFileSelect(file: SelectedFile)
      requires Valid()
      modifies this
      ensures Valid()
      ensures selectedFile == Some(file) && figures == MockFigures
      ensures old(processingStep) == Idle ==> Action() == ConvertButton && !ShowsProgress()
      ensures options == old(options) && processingStep == old(processingStep) && shownSteps == old(shownSteps)
    {
      InitialDataProperties();
      selectedFile := Some(file);
      figures := MockFigures;
    }

    /** `handleRemoveFile`: no file, no figures, back to idle; the options stay. */
    method HandleRemoveFile()
      requires Valid()
      modifies this
      ensures Valid()
      ensures selectedFile == None && figures == [] && processingStep == Idle
      ensures options == old(options) && shownSteps == old(shownSteps) + [Idle]
      ensures Action() == NoButton && !ShowsProgress()
    {
      selectedFile := None;
      figures := [];
      processingStep := Idle;
      shownSteps := shownSteps + [Idle];
    }

    /** `updateFigureCaption(id, caption)`, the figure panel's `onUpdateCaption`. */
    method UpdateFigureCaption(id: int, caption: string)
      requires Valid()
      modifies this
      ensures Valid()
      ensures figures == WithCaption(old(figures), id, caption)
      ensures selectedFile == old(selectedFile) && options == old(options)
      ensures processingStep == old(processingStep) && shownSteps == old(shownSteps)
    {
      figures := WithCaption(figures, id, caption);
      assert forall i :: 0 <= i < |figures| ==> figures[i].id == old(figures)[i].id;
    }

    /** The options panel's `onChange`, bound to `setOptions`. */
    method SetOptions(o: AbntOptions)
      modifies this
      ensures options == o
      ensures selectedFile == old(selectedFile) && figures == old(figures)
      ensures processingStep == old(processingStep) && shownSteps == old(shownSteps)
    {
      options := o;
    }

    /**
     * `handleConvert`: without a file nothing happens; otherwise the page is set to
     * reading, detecting, formatting, generating and complete in turn, and stays complete.
     */
    method HandleConvert()
      requires Valid()
      modifies this
      ensures Valid()
      ensures old(selectedFile).None? ==>
        processingStep == old(processingStep) && shownSteps == old(shownSteps)
      ensures old(selectedFile).Some? ==>
        processingStep == Complete && shownSteps == old(shownSteps) + ConvertSteps
    ensures old(selectedFile).Some? ==> ShowsProgress() && Action() == DownloadButton
      ensures selectedFile == old(selectedFile) && options == old(options) && figures == old(figures)
    {
      if selectedFile.None? {
        return;
      }
      var steps := ConvertSteps;
      for i := 0 to |steps|
        invariant processingStep == if i == 0 then old(processingStep) else steps[i - 1]
        invariant shownSteps == old(shownSteps) + steps[..i]
        invariant selectedFile == old(selectedFile) && options == old(options) && figures == old(figures)
      {
        processingStep := steps[i];
        shownSteps := shownSteps + [steps[i]];
      }
      assert steps[..|steps|] == steps;
    }
  }

  /**
   * The edit round trip the two components make together: start editing figure `k`, save
   * without typing, and the page applies the update it receives. The figure list is unchanged.
   */
  method EditAndSaveUntyped(page: Page, editor: CaptionEditor, k: nat)
    requires page.Valid() && k < |page.figures|
    modifies page, editor
    ensures page.Valid()
    ensures page.figures == old(page.figures)
    ensures editor.editingId == None
    ensures editor.sent == old(editor.sent) + [CaptionUpdate(old(page.figures)[k].id, old(page.figures)[k].name)]
  {
    var f := page.figures[k];
    editor.StartEditing(f);
    var update := editor.SaveEdit(f.id);
    page.UpdateFigureCaption(update.id, update.caption);
    SaveOwnNameIsIdentity(old(page.figures), k);
  }
}
