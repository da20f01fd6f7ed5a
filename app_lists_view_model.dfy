/** The `app` module's `ListsViewModel`: list creation and the rename dialog,
    which holds the list being edited and the text of its title field. */
module AppListsUi {
  import opened Optional
  import opened Text
  import opened AppDb
  import opened AppRepo

  /** The dialog: the list being renamed (`None`: no dialog) and the field's text. */
  datatype EditState = EditState(editing: Option<ListEntity>, title: string)

  /** What `saveEdit` does to the dialog state `st`: the row it hands to
      `updateList`, if any, and the dialog afterwards. Without a list being
      edited, or with a title that trims to nothing, nothing is written and the
      dialog stays as it is; otherwise the edited list is written with the
      trimmed title, every other field as it was, and the dialog closes. */
  function SaveStep(st: EditState): (r: (Option<ListEntity>, EditState))
    ensures r.0.None? <==> st.editing.None? || IsBlank(st.title)
    ensures r.0.None? ==> r.1 == st
    ensures r.0.Some? ==>
      r.0.value == st.editing.value.(title := r.0.value.title) && r.1 == EditState(None, st.title)
    ensures r.0.Some? ==> r.0.value.title == Trim(st.title)
    ensures r.0.Some? ==>
      r.0.value.title != [] && !IsWhitespace(r.0.value.title[0]) && !IsWhitespace(r.0.value.title[|r.0.value.title| - 1])
  {
    match st.editing
    case None => (None, st)
    case Some(current) =>
      var newTitle := Trim(st.title);
      if newTitle == [] then (None, st)
      else (Some(current.(title := newTitle)), EditState(None, st.title))
  }

  /** Opening the dialog on a list and saving at once writes the list back
      with its title trimmed. */
  lemma StartThenSave(l: ListEntity)
    requires !IsBlank(l.title)
    ensures SaveStep(EditState(Some(l), l.title)).0 == Some(l.(title := Trim(l.title)))
  {
  }

  /** Reopening the dialog on a list just saved and saving again writes the
      same row, and that second write leaves the table as the first left it. */
  lemma SaveAgainChangesNothing(rows: ListTable, st: EditState)
    requires SaveStep(st).0.Some?
    ensures var w := SaveStep(st).0.value;
      && SaveStep(EditState(Some(w), w.title)).0 == Some(w)
      && ListUpdated(ListUpdated(rows, w), w) == ListUpdated(rows, w)
  {
    var w := SaveStep(st).0.value;
    assert w.title == Trim(st.title);
    TrimIdempotent(st.title);
    assert w.(title := Trim(w.title)) == w;
    StartThenSave(w);
    if w.id in rows {
      StoredListUpdateIsNoop(ListUpdated(rows, w), w);
    }
  }

  /** Once the dialog is cancelled, or a save has gone through, saving writes nothing. */
  lemma ClosedDialogSavesNothing(st: EditState)
    ensures SaveStep(st.(editing := None)).0 == None
    ensures SaveStep(st).0.Some? ==> SaveStep(SaveStep(st).1).0 == None
  {
  }

  /** Saving a title that trims to the same text as an earlier save writes the same row. */
  lemma SaveIsIdempotentOnTitle(l: ListEntity, title: string)
    requires !IsBlank(title)
    ensures SaveStep(EditState(Some(l), Trim(title))).0 == SaveStep(EditState(Some(l), title)).0
  {
    TrimIdempotent(title);
  }

  class ListsViewModel {
    const repo: Repository
    var editingList: Option<ListEntity>
    var editingTitle: string

    constructor (repo: Repository)
      ensures this.repo == repo && editingList == None && editingTitle == ""
    {
      this.repo := repo;
      editingList := None;
      editingTitle := "";
    }

    function Dialog(): EditState
      reads this
    {
      EditState(editingList, editingTitle)
    }

    /** `createList(title)`: handed to the repository as it is. */
    method CreateList(title: string, id: string, now: int)
      modifies repo.listDao
      ensures repo.listDao.rows == old(repo.listDao.rows)[id := ListEntity(id, title, now, now)]
    {
      repo.CreateList(title, id, now);
    }

    /** `startEdit(list)`: opens the dialog on `l` with its current title. */
    method StartEdit(l: ListEntity)
      modifies this
      ensures Dialog() == EditState(Some(l), l.title)
    {
      editingList := Some(l);
      editingTitle := l.title;
    }

    /** `updateEditingTitle(text)`: only the field's text changes. */
    method UpdateEditingTitle(text: string)
      modifies this
      ensures Dialog() == old(Dialog()).(title := text)
    {
      editingTitle := text;
    }

    /** `cancelEdit()`: closes the dialog; the field's text is left as it was. */
    method CancelEdit()
      modifies this
      ensures Dialog() == old(Dialog()).(editing := None)
    {
      editingList := None;
    }

    /** `saveEdit()`: the update and the closing of the dialog, as one step. */
    method SaveEdit()
      modifies this, repo.listDao
      ensures Dialog() == SaveStep(old(Dialog())).1
      ensures repo.listDao.rows ==
        match SaveStep(old(Dialog())).0
        case None => old(repo.listDao.rows)
        case Some(w) => ListUpdated(old(repo.listDao.rows), w)
    {
      if editingList.None? {
        return;
      }
      var current := editingList.value;
      var newTitle := Trim(editingTitle);
      if newTitle == [] {
        return;
      }
      repo.UpdateList(current.(title := newTitle));
      editingList := None;
    }
  }
}
