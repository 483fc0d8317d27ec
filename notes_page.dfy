/**
 * The notes page: the search over notes, the choice between updating and creating on save,
 * and the flags that open the form or the note view.
 */
module NotesPage {
  import opened Wrappers
  import opened Text
  import Seqs
  import NF = NoteForm

  /** A listed note; the page reads its title and content as text. */
  datatype ListedNote = ListedNote(id: int, title: string, content: string)

  /** `filteredNotes`: the title or the content, lowercased, contains the trimmed, lowercased
      term. */
  function FilteredNotes(notes: seq<ListedNote>, searchTerm: string): seq<ListedNote> {
    var term := ToLower(Trim(searchTerm));
    Seqs.Filter(notes, (n: ListedNote) => Contains(ToLower(n.title), term) || Contains(ToLower(n.content), term))
  }

  lemma ContainsEmpty(s: string)
    ensures Contains(s, "")
  {
    assert StartsWith(s, "");
  }

  /** A note is listed exactly when it matches, in the notes' order, and a blank term lists
      every note. */
  lemma FilteredNotesExact(notes: seq<ListedNote>, searchTerm: string, n: ListedNote)
    ensures n in FilteredNotes(notes, searchTerm) <==>
              n in notes && (Contains(ToLower(n.title), ToLower(Trim(searchTerm)))
                             || Contains(ToLower(n.content), ToLower(Trim(searchTerm))))
    ensures Seqs.IsSubsequence(FilteredNotes(notes, searchTerm), notes)
    ensures AllSpace(searchTerm) ==> FilteredNotes(notes, searchTerm) == notes
  {
    var term := ToLower(Trim(searchTerm));
    var p := (n: ListedNote) => Contains(ToLower(n.title), term) || Contains(ToLower(n.content), term);
    Seqs.FilterIsSubsequence(notes, p);
    if n in notes && p(n) {
      var i :| 0 <= i < |notes| && notes[i] == n;
    }
    if AllSpace(searchTerm) {
      TrimShape(searchTerm);
      forall i | 0 <= i < |notes| ensures p(notes[i]) {
        ContainsEmpty(ToLower(notes[i].title));
      }
      Seqs.FilterKeepsAll(notes, p);
    }
  }

  /** The request a save sends: PUT to the note's id when it has one (JavaScript treats an id
      of 0 as none), otherwise POST. */
  datatype Request = Put(id: int, note: NF.Payload) | Post(note: NF.Payload)

  function SaveRequest(note: NF.Payload): (r: Request)
    ensures r.note == note
    ensures r.Put? <==> note.id.Some? && note.id.value != 0
    ensures r.Put? ==> r.id == note.id.value
  {
    if note.id.Some? && note.id.value != 0 then Put(note.id.value, note) else Post(note)
  }

  class Page {
    var notes: seq<ListedNote>
    var editingNote: Option<NF.Note>
    var viewingNote: Option<NF.Note>
    var showNoteForm: bool

    /** The form and the note view are never open together. */
    ghost predicate Valid()
      reads this
    {
      !(showNoteForm && viewingNote.Some?)
    }

    constructor ()
      ensures Valid() && notes == [] && editingNote == None && viewingNote == None && !showNoteForm
    {
      notes, editingNote, viewingNote, showNoteForm := [], None, None, false;
    }

    /** `handleCreateOrUpdate`: the request, and on success editing ends and the form closes
        (the reload follows separately). */
    method CreateOrUpdate(note: NF.Payload, succeeded: bool) returns (sent: Request)
      requires Valid()
      modifies this
      ensures Valid() && sent == SaveRequest(note) && notes == old(notes) && viewingNote == old(viewingNote)
      ensures succeeded ==> editingNote == None && !showNoteForm
      ensures !succeeded ==> editingNote == old(editingNote) && showNoteForm == old(showNoteForm)
    {
      if note.id.Some? && note.id.value != 0 {
        sent := Put(note.id.value, note);
      } else {
        sent := Post(note);
      }
      if succeeded {
        editingNote := None;
        showNoteForm := false;
      }
    }

    method NewNote()
      modifies this
      ensures Valid() && editingNote == None && viewingNote == None && showNoteForm && notes == old(notes)
    {
      editingNote, viewingNote, showNoteForm := None, None, true;
    }

    method EditNote(note: NF.Note)
      modifies this
      ensures Valid() && editingNote == Some(note) && viewingNote == None && showNoteForm && notes == old(notes)
    {
      editingNote, viewingNote, showNoteForm := Some(note), None, true;
    }

    method ViewNote(note: NF.Note)
      modifies this
      ensures Valid() && viewingNote == Some(note) && editingNote == None && !showNoteForm && notes == old(notes)
    {
      viewingNote, editingNote, showNoteForm := Some(note), None, false;
    }

    /** The close button: no form, no view, nothing being edited. */
    method Close()
      modifies this
      ensures Valid() && !showNoteForm && viewingNote == None && editingNote == None && notes == old(notes)
    {
      showNoteForm, viewingNote, editingNote := false, None, None;
    }

    method SetNotes(fetched: seq<ListedNote>)
      requires Valid()
      modifies this
      ensures Valid() && notes == fetched
      ensures editingNote == old(editingNote) && viewingNote == old(viewingNote) && showNoteForm == old(showNoteForm)
    {
      notes := fetched;
    }
  }
}
