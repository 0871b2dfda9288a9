/**
  The durable slot the training store mirrors its list into
  (src/hooks/use-local-storage.ts): one key of the browser's local storage,
  holding the list as encoded text, and the fail-soft load of that slot.
 */
module Persistence {
  import opened Types

  /** The single key the store reads and writes. */
  const StorageKey := "gym-bro-trainings"

  /**
    The text encoding of the list (`JSON.stringify`) and its parser
    (`JSON.parse`), which fails on text it cannot read.
   */
  datatype Codec = Codec(encode: seq<Training> -> string, decode: string -> Option<seq<Training>>)

  /**
    What the store relies on of its codec: an encoded list is never the empty
    text, and decoding it gives the same list back.
   */
  ghost predicate Lawful(c: Codec) {
    forall ts: seq<Training> :: c.encode(ts) != "" && c.decode(c.encode(ts)) == Some(ts)
  }

  /** `localStorage.getItem(StorageKey)`: the slot's text, or nothing when the key is missing. */
  function Slot(storage: map<string, string>): (r: Option<string>)
    ensures r.Some? <==> StorageKey in storage
    ensures r.Some? ==> r.value == storage[StorageKey]
  {
    if StorageKey in storage then Some(storage[StorageKey]) else None
  }

  /**
    The list the load effect installs: nothing for a missing or empty slot,
    nothing when the text does not parse, otherwise the parsed list.
   */
  function Load(c: Codec, slot: Option<string>): (r: seq<Training>)
    ensures r == [] || (slot.Some? && slot.value != "" && c.decode(slot.value) == Some(r))
    ensures slot.Some? && slot.value != "" && c.decode(slot.value).Some? ==> r == c.decode(slot.value).value
  {
    match slot
    case None => []
    case Some(text) =>
      if text == "" then []
      else
        match c.decode(text)
        case None => []
        case Some(parsed) => parsed
  }

  /** Loading what was just saved gives back the saved list. */
  lemma LoadAfterSave(c: Codec, storage: map<string, string>, ts: seq<Training>)
    requires Lawful(c)
    ensures Load(c, Slot(storage[StorageKey := c.encode(ts)])) == ts
  {
    assert c.encode(ts) != "" && c.decode(c.encode(ts)) == Some(ts);
  }
}
