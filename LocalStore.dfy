/**
 * Device-local persistence of the source list: one JSON blob under the key
 * `jobSources` of the browser's key-value store.
 */
module LocalStore {
  import opened Wrappers
  import opened JobSources
  import Json

  const Key: string := "jobSources"

  /** `JSON.parse` threw: the stored text is not a source list. */
  datatype LoadError = SyntaxError

  /** The browser's `localStorage`: string keys to string values. */
  class Storage {
    var items: map<string, string>

    constructor (items: map<string, string>)
      ensures this.items == items
    {
      this.items := items;
    }
  }

  /**
   * What `loadSourcesGlobally` makes of the stored value: no value, or the
   * empty string (falsy), gives the empty list; otherwise the text is parsed
   * and a parse failure propagates as an error.
   */
  function Loaded(stored: Option<string>): (r: Result<seq<JobSource>, LoadError>)
    ensures stored.None? ==> r == Ok([])
    ensures stored == Some("") ==> r == Ok([])
    ensures stored.Some? && stored.value != "" ==>
      r == (if Json.Decode(stored.value).Some? then Ok(Json.Decode(stored.value).value) else Err(SyntaxError))
  {
    match stored
    case None => Ok([])
    case Some(text) =>
      if text == "" then Ok([])
      else match Json.Decode(text)
        case Some(xs) => Ok(xs)
        case None => Err(SyntaxError)
  }

  /** `saveSourcesGlobally`: overwrites the one key with the encoded list; other keys are untouched. */
  method SaveSourcesGlobally(store: Storage, sources: seq<JobSource>)
    modifies store
    ensures store.items == old(store.items)[Key := Json.Encode(sources)]
  {
    store.items := store.items[Key := Json.Encode(sources)];
  }

  /** `loadSourcesGlobally`: reads the key and parses it; the store is not changed. */
  method LoadSourcesGlobally(store: Storage) returns (r: Result<seq<JobSource>, LoadError>)
    ensures Key !in store.items ==> r == Ok([])
    ensures Key in store.items ==> r == Loaded(Some(store.items[Key]))
  {
    var stored: Option<string> := if Key in store.items then Some(store.items[Key]) else None;
    r := Loaded(stored);
  }

  /** A saved list loads back unchanged. */
  lemma LoadedSaved(xs: seq<JobSource>)
    ensures Loaded(Some(Json.Encode(xs))) == Ok(xs)
  {
    Json.DecodeEncode(xs);
    assert Json.Encode(xs)[0] == '[';
  }

  /** A stored value that is not a source list makes loading fail instead of yielding []. */
  lemma CorruptBlobFails()
    ensures Loaded(Some("not json")) == Err(SyntaxError)
  {
    var t := "not json";
    assert t[0] == 'n';
    assert !("[" <= t);
  }

  /** Saving then loading on the same device gives back the saved list. */
  method SaveThenLoad(store: Storage, xs: seq<JobSource>) returns (r: Result<seq<JobSource>, LoadError>)
    modifies store
    ensures r == Ok(xs)
    ensures forall k :: k in old(store.items) && k != Key ==> k in store.items && store.items[k] == old(store.items)[k]
  {
    SaveSourcesGlobally(store, xs);
    r := LoadSourcesGlobally(store);
    LoadedSaved(xs);
  }
}
