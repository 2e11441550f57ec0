/**
 * The source-list editor: a draft copy of the `sources` prop that the
 * operator edits, an edit-mode flag and a two-field form for a new entry.
 * Each handler replaces the draft by one of the pure list transforms of
 * module JobSources.
 */
module JobSourceManager {
  import opened JobSources

  class Manager {
    /** The `sources` prop handed down by the page. */
    var sources: seq<JobSource>
    /** The draft list (`editingSources`). */
    var editingSources: seq<JobSource>
    var isEditing: bool
    /** The new-entry form (`newSource`). */
    var newName: string
    var newUrl: string

    /** Mounting: the draft starts as a copy of the prop; not editing; empty form. */
    constructor (sources: seq<JobSource>)
      ensures this.sources == sources && editingSources == sources
      ensures !isEditing && newName == "" && newUrl == ""
    {
      this.sources := sources;
      editingSources := sources;
      isEditing := false;
      newName, newUrl := "", "";
    }

    /** The page re-renders with a new prop; the draft state is not re-initialised. */
    method ReceiveSources(s: seq<JobSource>)
      modifies this`sources
      ensures sources == s
    {
      sources := s;
    }

    /** Typing into the name input of the new-entry form. */
    method SetNewName(name: string)
      modifies this`newName
      ensures newName == name
    {
      newName := name;
    }

    /** Typing into the url input of the new-entry form. */
    method SetNewUrl(url: string)
      modifies this`newUrl
      ensures newUrl == url
    {
      newUrl := url;
    }

    /**
     * Add: only when both form fields are non-empty, appends one record built
     * from the form and the supplied clock value `id`, then clears the form.
     * Uniqueness of `id` is not checked.
     */
    method HandleAddSource(id: string)
      modifies this`editingSources, this`newName, this`newUrl
      ensures old(newName) != "" && old(newUrl) != "" ==>
        && editingSources == old(editingSources) + [JobSource(id, old(newName), old(newUrl))]
        && newName == "" && newUrl == ""
      ensures old(newName) == "" || old(newUrl) == "" ==>
        editingSources == old(editingSources) && newName == old(newName) && newUrl == old(newUrl)
    {
      if newName != "" && newUrl != "" {
        var newSourceWithId := JobSource(id, newName, newUrl);
        editingSources := editingSources + [newSourceWithId];
        newName, newUrl := "", "";
      }
    }

    /** Delete: drops every record carrying `id` from the draft. */
    method HandleDeleteSource(id: string)
      modifies this`editingSources
      ensures editingSources == Without(old(editingSources), id)
    {
      editingSources := Without(editingSources, id);
    }

    /** Update: sets one field of every draft record carrying `id`. */
    method HandleUpdateSource(id: string, field: Field, value: string)
      modifies this`editingSources
      ensures editingSources == Updated(old(editingSources), id, field, value)
    {
      editingSources := Updated(editingSources, id, field, value);
    }

    /** Save: hands exactly the current draft to `onSourcesChange` and leaves edit mode. */
    method HandleSave() returns (emitted: seq<JobSource>)
      modifies this`isEditing
      ensures emitted == editingSources
      ensures !isEditing
    {
      emitted := editingSources;
      isEditing := false;
    }

    /** Cancel: the draft goes back to the prop, edit mode ends, the form is cleared. */
    method HandleCancel()
      modifies this`editingSources, this`isEditing, this`newName, this`newUrl
      ensures editingSources == sources
      ensures !isEditing && newName == "" && newUrl == ""
    {
      editingSources := sources;
      isEditing := false;
      newName, newUrl := "", "";
    }

    /** The header button: flips edit mode and nothing else (the draft is kept). */
    method ToggleEditing()
      modifies this`isEditing
      ensures isEditing == !old(isEditing)
    {
      isEditing := !isEditing;
    }
  }

  /**
   * The editor keeps a draft with distinct ids distinct through any delete
   * and update, and through an add whose clock value is not already used.
   */
  method EditKeepsUnique(m: Manager, deleted: string, edited: string, field: Field, value: string, clock: string)
    requires UniqueIds(m.editingSources)
    requires clock !in Ids(m.editingSources)
    modifies m`editingSources, m`newName, m`newUrl
    ensures UniqueIds(m.editingSources)
  {
    m.HandleUpdateSource(edited, field, value);
    UpdatedKeepsIds(old(m.editingSources), edited, field, value);
    ghost var beforeDelete := m.editingSources;
    m.HandleDeleteSource(deleted);
    WithoutKeepsUnique(beforeDelete, deleted);
    WithoutIds(beforeDelete, deleted);
    ghost var beforeAdd := m.editingSources;
    m.HandleAddSource(clock);
    if m.editingSources != beforeAdd {
      AppendUnique(beforeAdd, m.editingSources[|m.editingSources| - 1]);
    }
  }
}
