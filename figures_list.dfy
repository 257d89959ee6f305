/**
 * The detected-figures panel (src/components/FiguresList.tsx): the Figure record, the
 * caption edit session held in `editingId`/`editValue`, and the rows the panel draws.
 */
module FiguresList {
  import opened Wrappers

  /** Figure: `id` numbers the figure, `name` is its editable caption text, `originalName` its source asset. */
  datatype Figure = Figure(id: int, name: string, originalName: string)

  /** No two figures share an id (React keys the rows by id). */
  predicate UniqueIds(figs: seq<Figure>) {
    forall i, j :: 0 <= i < j < |figs| ==> figs[i].id != figs[j].id
  }

  /** One call of `onUpdateCaption(id, caption)`. */
  datatype CaptionUpdate = CaptionUpdate(id: int, caption: string)

  /** One row of the panel. */
  datatype Row = Row(
    labelNumber: int,    // the "Figura {id}" label shows this number
    editing: bool,       // the row shows the text input with save/cancel buttons
    text: string,        // the input's value while editing, the figure's name otherwise
    editButton: bool)    // the row shows the pencil button

  /** The panel's heading count and rows. */
  datatype ListView = ListView(count: nat, rows: seq<Row>)

  /** The row drawn for one figure. */
  function RowFor(f: Figure, editingId: Option<int>, editValue: string): (row: Row)
    ensures row.labelNumber == f.id
    ensures row.editing <==> editingId == Some(f.id)
    ensures row.editButton <==> !row.editing
    ensures row.text == if row.editing then editValue else f.name
  {
    var editing := editingId == Some(f.id);
    Row(f.id, editing, if editing then editValue else f.name, !editing)
  }

  /** The whole panel; an empty figure list renders nothing. */
  function Render(figs: seq<Figure>, editingId: Option<int>, editValue: string): (v: Option<ListView>)
    ensures v.None? <==> figs == []
    ensures v.Some? ==> v.value.count == |figs| && |v.value.rows| == |figs|
    ensures v.Some? ==> forall i :: 0 <= i < |figs| ==> v.value.rows[i] == RowFor(figs[i], editingId, editValue)
  {
    if |figs| == 0 then None
    else Some(ListView(|figs|, seq(|figs|, i requires 0 <= i < |figs| => RowFor(figs[i], editingId, editValue))))
  }

  /**
   * With distinct ids at most one row is in edit mode, and every row not in edit mode
   * offers its edit button.
   */
  lemma AtMostOneRowEditing(figs: seq<Figure>, editingId: Option<int>, editValue: string)
    requires UniqueIds(figs) && figs != []
    ensures var rows := Render(figs, editingId, editValue).value.rows;
      && (forall i, j :: 0 <= i < j < |rows| ==> !(rows[i].editing && rows[j].editing))
      && (forall i :: 0 <= i < |rows| ==> (rows[i].editButton <==> !rows[i].editing))
      && (editingId.None? ==> forall i :: 0 <= i < |rows| ==> !rows[i].editing && rows[i].text == figs[i].name)
  {
    var rows := Render(figs, editingId, editValue).value.rows;
    forall i, j | 0 <= i < j < |rows| ensures !(rows[i].editing && rows[j].editing) {
      assert rows[i] == RowFor(figs[i], editingId, editValue);
      assert rows[j] == RowFor(figs[j], editingId, editValue);
    }
  }

  /** The component's state, and the calls it has made to `onUpdateCaption`. */
  class CaptionEditor {
    var editingId: Option<int>
    var editValue: string
    /** The `onUpdateCaption` calls made so far, oldest first. */
    var sent: seq<CaptionUpdate>

    /** `useState<number | null>(null)` and `useState('')`. */
    constructor ()
      ensures editingId == None && editValue == "" && sent == []
    {
      editingId := None;
      editValue := "";
      sent := [];
    }

    /** The rendered panel for the given figures in the current state. */
    function View(figs: seq<Figure>): (v: Option<ListView>)
      reads this
      ensures v.None? <==> figs == []
    {
      Render(figs, editingId, editValue)
    }

    /** `startEditing(figure)`: edit this figure, starting from its current name. */
    method StartEditing(figure: Figure)
      modifies this
      ensures editingId == Some(figure.id) && editValue == figure.name
      ensures sent == old(sent)
    {
      editingId := Some(figure.id);
      editValue := figure.name;
    }

    /** The input's `onChange`: the typed text replaces `editValue`. */
    method ChangeText(value: string)
      modifies this
      ensures editValue == value
      ensures editingId == old(editingId) && sent == old(sent)
    {
      editValue := value;
    }

    /** `saveEdit(id)`: one `onUpdateCaption(id, editValue)` call; `editValue` is not reset. */
    method SaveEdit(id: int) returns (update: CaptionUpdate)
      modifies this
      ensures update == CaptionUpdate(id, old(editValue))
      ensures sent == old(sent) + [update]
      ensures editingId == None && editValue == old(editValue)
    {
      update := CaptionUpdate(id, editValue);
      sent := sent + [update];
      editingId := None;
    }

    /** `cancelEdit()`: leave edit mode and clear the text; nothing is sent. */
    method CancelEdit()
      modifies this
      ensures editingId == None && editValue == ""
      ensures sent == old(sent)
    {
      editingId := None;
      editValue := "";
    }

    /** The input's `onKeyDown` on the row of figure `id`: Enter saves, Escape cancels, other keys do nothing. */
    method KeyDown(key: string, id: int)
      modifies this
      ensures key == "Enter" ==> editingId == None && editValue == old(editValue) && sent == old(sent) + [CaptionUpdate(id, old(editValue))]
      ensures key == "Escape" ==> editingId == None && editValue == "" && sent == old(sent)
      ensures key != "Enter" && key != "Escape" ==>
        editingId == old(editingId) && editValue == old(editValue) && sent == old(sent)
    {
      if key == "Enter" {
        var _ := SaveEdit(id);
      }
      if key == "Escape" {
        CancelEdit();
      }
    }
  }
}
