/** Browser local storage as the purchase-order and expense pages use it: raw text under a
    fixed key, read once when the page loads and written again after every change of the
    list. JSON parsing and printing are not part of this model; a caller supplies them. */
module Storage {
  import opened Wrappers

  /** The contents of local storage: raw text per key. */
  type Store = map<string, string>

  /** `localStorage.getItem(key)`: `null` (here `None`) when the key is absent. */
  function GetItem(store: Store, key: string): Option<string> {
    if key in store then Some(store[key]) else None
  }

  /** JavaScript truthiness of what `getItem` returned: `null` and `""` are falsy. */
  predicate IsTruthy(text: Option<string>) {
    text.Some? && text.value != ""
  }

  /** The load effect: a falsy stored text gives the empty list, and so does a text that
      `parse` rejects (the `catch` branch); otherwise the parsed list. */
  function LoadList<S>(store: Store, key: string, parse: string -> Option<seq<S>>): (r: seq<S>)
    ensures !IsTruthy(GetItem(store, key)) ==> r == []
    ensures IsTruthy(GetItem(store, key)) && parse(store[key]).None? ==> r == []
    ensures IsTruthy(GetItem(store, key)) && parse(store[key]).Some? ==> r == parse(store[key]).value
  {
    var stored := GetItem(store, key);
    if !IsTruthy(stored) then []
    else
      match parse(stored.value)
      case None => []
      case Some(list) => list
  }

  /** The guarded save effect: `text` (the serialized list of `count` records) is written
      only when the list is non-empty or the key already holds a truthy text, so an empty
      placeholder is never created, yet an emptied list still overwrites a stored one.
      No other key is touched. */
  function SaveList(store: Store, key: string, count: nat, text: string): (r: Store)
    ensures count > 0 || IsTruthy(GetItem(store, key)) ==> r == store[key := text]
    ensures count == 0 && !IsTruthy(GetItem(store, key)) ==> r == store
    ensures forall k :: k != key ==> GetItem(r, k) == GetItem(store, k)
  {
    if count > 0 || IsTruthy(GetItem(store, key)) then store[key := text] else store
  }

  /** The save right after a non-empty save writes, even of an empty list: deleting the
      last record persists the empty list rather than leaving the old one behind. */
  lemma SaveAfterFirstWrite(store: Store, key: string, count1: nat, text1: string, count2: nat, text2: string)
    requires count1 > 0 && text1 != ""
    ensures GetItem(SaveList(SaveList(store, key, count1, text1), key, count2, text2), key) == Some(text2)
  {
    var once := SaveList(store, key, count1, text1);
    assert GetItem(once, key) == Some(text1);
  }

  /** A save that writes a non-empty text leaves the key holding truthy text, so the save
      after it writes too. Chained, every save writes once one has written, for as long as
      the serialized texts are non-empty. */
  lemma SaveKeepsStoredText(store: Store, key: string, count: nat, text: string)
    requires (count > 0 || IsTruthy(GetItem(store, key))) && text != ""
    ensures IsTruthy(GetItem(SaveList(store, key, count, text), key))
    ensures GetItem(SaveList(store, key, count, text), key) == Some(text)
  {
  }

  /** Whatever was saved last is what the next load parses. */
  lemma {:induction false} LoadAfterSave<S>(store: Store, key: string, count: nat, text: string, parse: string -> Option<seq<S>>)
    requires count > 0 && text != ""
    ensures LoadList(SaveList(store, key, count, text), key, parse) == (if parse(text).Some? then parse(text).value else [])
  {
    var saved := SaveList(store, key, count, text);
    assert GetItem(saved, key) == Some(text);
  }
}
