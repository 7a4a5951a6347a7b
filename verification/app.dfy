/**
 * The `App` component's state and its three handlers. Each React state hook
 * is a field; each handler is a method that runs to completion in one step
 * (the awaited request included). The stored snapshot under the storage key
 * is a field too, written by `Persist`, the effect that runs whenever
 * `history` changes.
 */
module App {
  import opened Wrappers
  import opened Text
  import opened Api
  import opened History

  /** The one storage key the history snapshot lives under. */
  const StorageKey := "translationHistory"

  /** The style selected when the page opens. */
  const DefaultStyle := "friend"

  class Session {
    var inputText: string
    var selectedStyle: string
    var translatedText: string
    var isLoading: bool
    var history: seq<Entry>
    /** Browser storage, each key holding a decoded snapshot. */
    var storage: map<string, seq<Entry>>

    /** Between handlers: no request in flight and the stored snapshot mirrors the log. */
    ghost predicate Valid(): (b: bool)
      reads this
      ensures b ==> StorageKey in storage && storage[StorageKey] == history && !isLoading
    {
      !isLoading && StorageKey in storage && storage[StorageKey] == history
    }

    /**
     * Mounting: the hooks' initial values, then the load effect (a snapshot
     * under `StorageKey`, if there is one, replaces the empty log) and the
     * persist effect, which writes that log back under the same key.
     */
    constructor (initialStorage: map<string, seq<Entry>>)
      ensures Valid()
      ensures inputText == "" && selectedStyle == DefaultStyle && translatedText == ""
      ensures history == (if StorageKey in initialStorage then initialStorage[StorageKey] else [])
      ensures storage == initialStorage[StorageKey := history]
    {
      inputText := "";
      selectedStyle := DefaultStyle;
      translatedText := "";
      isLoading := false;
      var loaded := if StorageKey in initialStorage then initialStorage[StorageKey] else [];
      history := loaded;
      storage := initialStorage[StorageKey := loaded];
    }

    /** The effect on `[history]`: overwrite the snapshot under `StorageKey`, and no other key. */
    method Persist()
      modifies this`storage
      ensures storage == old(storage)[StorageKey := history]
    {
      storage := storage[StorageKey := history];
    }

    /** The text area's `onChange`. */
    method SetInputText(text: string)
      requires Valid()
      modifies this`inputText
      ensures Valid() && inputText == text
    {
      inputText := text;
    }

    /** A style button's `onClick`. */
    method SetSelectedStyle(style: string)
      requires Valid()
      modifies this`selectedStyle
      ensures Valid() && selectedStyle == style
    {
      selectedStyle := style;
    }

    /**
     * The awaited `translateText(inputText, selectedStyle)`; it may only be
     * issued while the loading flag is up.
     */
    method CallTranslate(apiKey: Option<string>, send: Request -> Outcome) returns (result: string)
      requires isLoading
      ensures result == TranslateText(apiKey, inputText, selectedStyle, send)
    {
      result := TranslateText(apiKey, inputText, selectedStyle, send);
    }

    /**
     * `handleTranslate`. Blank input changes nothing and makes no call.
     * Otherwise the loading flag is raised, `translateText` runs (through
     * `CallTranslate`, which demands the flag), its reply (a translation or a
     * diagnostic) is shown and recorded as the newest entry, the log is cut to
     * `Capacity`, the snapshot follows, and the flag comes down. `now` and
     * `timestamp` stand for `Date.now()` and the ISO time.
     */
    method HandleTranslate(apiKey: Option<string>, send: Request -> Outcome, now: int, timestamp: string)
      returns (ghost called: bool)
      requires Valid()
      modifies this
      ensures Valid()
      ensures inputText == old(inputText) && selectedStyle == old(selectedStyle)
      ensures called <==> Trim(old(inputText)) != ""
      ensures !called ==> unchanged(this)
      ensures called ==>
                var result := TranslateText(apiKey, inputText, selectedStyle, send);
                && translatedText == result
                && history == Push(old(history), Entry(now, inputText, result, selectedStyle, timestamp))
                && |history| <= Capacity
                && storage == old(storage)[StorageKey := history]
    {
      if Trim(inputText) == "" {
        return false;
      }
      called := true;
      isLoading := true;
      var result := CallTranslate(apiKey, send);
      translatedText := result;
      var newItem := Entry(now, inputText, result, selectedStyle, timestamp);
      history := Push(history, newItem);
      Persist();
      isLoading := false;
    }

    /** `deleteHistoryItem`: drop every entry with this id; nothing else moves. */
    method DeleteHistoryItem(id: int)
      requires Valid()
      modifies this
      ensures Valid()
      ensures history == Remove(old(history), id)
      ensures storage == old(storage)[StorageKey := history]
      ensures inputText == old(inputText) && selectedStyle == old(selectedStyle)
      ensures translatedText == old(translatedText)
    {
      history := Remove(history, id);
      Persist();
    }

    /** `loadHistoryItem`: show a stored entry again; the log is not touched. */
    method LoadHistoryItem(item: Entry)
      requires Valid()
      modifies this`inputText, this`selectedStyle, this`translatedText
      ensures Valid()
      ensures inputText == item.original && selectedStyle == item.style
      ensures translatedText == item.translated
    {
      inputText := item.original;
      selectedStyle := item.style;
      translatedText := item.translated;
    }
  }
}
