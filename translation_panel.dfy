/** The translation review panel: the list of translations with an editor per entry, the
    count of successful translations, and each entry's label. */
module TranslationPanel {
  import opened Wrappers
  import opened Strings
  import opened Model
  import Overlay
  import TranslateRoute

  /** `translations.filter(t => t.translation && t.translation !== 'Translation failed')`. */
  function SuccessfulTranslations(ts: seq<Rect>): (r: seq<Rect>)
    ensures |r| <= |ts|
    ensures forall t :: t in r <==> t in ts && Overlay.Drawable(t)
  {
    if ts == [] then []
    else (if Overlay.Drawable(ts[0]) then [ts[0]] else []) + SuccessfulTranslations(ts[1..])
  }

  /** The panel counts exactly the entries the renderer will draw. */
  lemma {:induction false} SuccessfulCount(ts: seq<Rect>)
    ensures |SuccessfulTranslations(ts)| == |ts| <==> forall i :: 0 <= i < |ts| ==> Overlay.Drawable(ts[i])
  {
    if ts != [] {
      SuccessfulCount(ts[1..]);
      assert forall i :: 1 <= i < |ts| ==> ts[i] == ts[1..][i - 1];
      if |SuccessfulTranslations(ts)| == |ts| {
        assert Overlay.Drawable(ts[0]);
      }
    }
  }

  /** `'Page ' + (page + 1)` and `id.split('_').pop()`. */
  datatype Label = Label(page: int, area: string)

  function AreaLabel(id: string): (a: string)
    ensures '_' !in a
    ensures '_' !in id ==> a == id
  {
    var pieces := Split(id, '_');
    if '_' in id then pieces[|pieces| - 1]
    else SplitWithout(id, '_'); pieces[|pieces| - 1]
  }

  function ItemLabel(item: Rect): (l: Label)
    ensures l.page == item.page + 1 && l.area == AreaLabel(item.id)
  {
    Label(item.page + 1, AreaLabel(item.id))
  }

  /** The area label of an id ending in `_<digits>` is those digits: an expanded copy is labelled
      with its page index, and a rectangle added in the editor with its timestamp. */
  lemma CopyLabel(id: string, i: nat)
    ensures AreaLabel(TranslateRoute.CopyId(id, i)) == NatToString(i)
  {
    NatToStringDigits(i);
    assert '_' !in NatToString(i);
    assert TranslateRoute.CopyId(id, i) == (id + "_page") + ['_'] + NatToString(i);
    SplitLast(id + "_page", NatToString(i), '_');
  }

  /** The editor of one entry: the text being edited and whether the editor is open. */
  class TranslationItem {
    const item: Rect
    var isEditing: bool
    var editText: Option<string>

    constructor(item: Rect)
      ensures this.item == item && !isEditing && editText == item.translation
    {
      this.item := item;
      isEditing := false;
      editText := item.translation;
    }

    /** The edit button. */
    method ToggleEditing()
      modifies this
      ensures isEditing == !old(isEditing) && editText == old(editText)
    {
      isEditing := !isEditing;
    }

    /** Typing into the text area. */
    method Edit(text: string)
      modifies this
      ensures editText == Some(text) && isEditing == old(isEditing)
    {
      editText := Some(text);
    }

    /** `handleSave`: hands `(id, editText)` to the panel and closes the editor. */
    method Save() returns (id: string, text: Option<string>)
      modifies this
      ensures id == item.id && text == old(editText)
      ensures !isEditing && editText == old(editText)
    {
      id, text := item.id, editText;
      isEditing := false;
    }

    /** `handleCancel`: restores the entry's translation and closes the editor. */
    method Cancel()
      modifies this
      ensures editText == item.translation && !isEditing
    {
      editText := item.translation;
      isEditing := false;
    }
  }

  /** Saving entry `i` of a list with distinct ids gives that entry the edited text, leaves the
      others alone, and puts the entry among the successful ones exactly when the new text is
      non-empty and not the failure marker. */
  lemma SavedEdit(ts: seq<Rect>, i: int, text: Option<string>)
    requires 0 <= i < |ts|
    requires forall j, k :: 0 <= j < k < |ts| ==> ts[j].id != ts[k].id
    ensures var r := SetTranslationById(ts, ts[i].id, text);
      r[i] == ts[i].(translation := text)
      && (forall j :: 0 <= j < |ts| && j != i ==> r[j] == ts[j])
      && (r[i] in SuccessfulTranslations(r) <==> Truthy(text) && text.value != Overlay.TranslationFailed)
  {
  }
}
