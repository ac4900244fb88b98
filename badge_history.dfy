/**
 * The badge history panel: a most-recent-first list of generated badges,
 * capped at twenty, mirrored into browser storage under one key.
 *
 * Storage is a string map; `JSON.stringify` and `JSON.parse` are the
 * parameters `serialize` and `parse`, and item ids are the decimal text of
 * the clock reading, given by `decimal`.
 */
module BadgeHistory {
  import opened Wrappers
  import opened Seqs

  const STORAGE_KEY: string := "badgify-history"
  const CAPACITY: int := 20

  /** `BadgeHistoryItem`, with `createdAt` in milliseconds. */
  datatype HistoryItem = HistoryItem(id: string, url: string, markdown: string, createdAt: int, name: Option<string>)

  function Min(a: int, b: int): int {
    if a <= b then a else b
  }

  /** The first `n` elements, or all of them when there are fewer. */
  function Take<T>(s: seq<T>, n: nat): (r: seq<T>)
    ensures |r| == Min(n, |s|)
  {
    s[..Min(n, |s|)]
  }

  /**
   * `[newBadge, ...history.slice(0, 19)]`: the new item first, then the
   * first nineteen old items in their order; twenty at most.
   */
  function Saved(history: seq<HistoryItem>, item: HistoryItem): (r: seq<HistoryItem>)
    ensures |r| == Min(|history| + 1, CAPACITY)
    ensures r[0] == item
    ensures r[1..] == history[..Min(|history|, CAPACITY - 1)]
  {
    [item] + history[..Min(|history|, CAPACITY - 1)]
  }

  function NotId(id: string): HistoryItem -> bool {
    (item: HistoryItem) => item.id != id
  }

  /** `history.filter(item => item.id !== id)`: every item with that id goes; the rest keep their order. */
  function Deleted(history: seq<HistoryItem>, id: string): (r: seq<HistoryItem>)
    ensures IsSubsequence(r, history)
    ensures forall item | item in r :: item.id != id
    ensures forall item | item in history && item.id != id :: item in r
  {
    Filter(history, NotId(id))
  }

  /** Deleting an id no item has changes nothing. */
  lemma DeleteAbsent(history: seq<HistoryItem>, id: string)
    requires forall item | item in history :: item.id != id
    ensures Deleted(history, id) == history
  {
    FilterKeepsAll(history, NotId(id));
  }

  /** Saving one item after another, oldest first. */
  function SavedAll(history: seq<HistoryItem>, items: seq<HistoryItem>): seq<HistoryItem>
    decreases |items|
  {
    if items == [] then history else Saved(SavedAll(history, items[..|items| - 1]), items[|items| - 1])
  }

  function Reverse<T>(s: seq<T>): (r: seq<T>)
    ensures |r| == |s|
    ensures forall i | 0 <= i < |s| :: r[i] == s[|s| - 1 - i]
  {
    if s == [] then [] else [s[|s| - 1]] + Reverse(s[..|s| - 1])
  }

  lemma TakeAfterCons<T>(x: T, s: seq<T>)
    ensures Take([x] + Take(s, CAPACITY), CAPACITY) == Take([x] + s, CAPACITY)
  {
  }

  /**
   * After one or more saves the history is the saved items, newest first,
   * followed by the old history, cut to twenty.
   */
  lemma {:induction false} SavedAllIsRecentFirst(history: seq<HistoryItem>, items: seq<HistoryItem>)
    requires items != []
    ensures SavedAll(history, items) == Take(Reverse(items) + history, CAPACITY)
    decreases |items|
  {
    var init := items[..|items| - 1];
    var last := items[|items| - 1];
    assert Reverse(items) == [last] + Reverse(init);
    if init == [] {
      assert SavedAll(history, init) == history;
      assert Saved(history, last) == Take([last] + history, CAPACITY);
    } else {
      SavedAllIsRecentFirst(history, init);
      TakeAfterCons(last, Reverse(init) + history);
      assert Saved(SavedAll(history, init), last) == Take([last] + SavedAll(history, init), CAPACITY);
      assert [last] + (Reverse(init) + history) == Reverse(items) + history;
    }
  }

  /** `JSON.parse(JSON.stringify(h))` gives `h` back, and the text is never empty. */
  ghost predicate RoundTrip(serialize: seq<HistoryItem> -> string, parse: string -> Option<seq<HistoryItem>>) {
    forall h :: serialize(h) != "" && parse(serialize(h)) == Some(h)
  }

  /** What loading finds in `storage`: a parsed list, or nothing when the key is missing, empty or unparsable. */
  function Reloaded(storage: map<string, string>, parse: string -> Option<seq<HistoryItem>>): (h: seq<HistoryItem>)
    ensures STORAGE_KEY !in storage ==> h == []
    ensures STORAGE_KEY in storage && storage[STORAGE_KEY] != "" && parse(storage[STORAGE_KEY]).Some? ==>
              h == parse(storage[STORAGE_KEY]).value
  {
    if STORAGE_KEY in storage && storage[STORAGE_KEY] != "" then parse(storage[STORAGE_KEY]).GetOr([]) else []
  }

  /** The panel's state and the browser storage it writes to. */
  class History {
    const serialize: seq<HistoryItem> -> string
    const parse: string -> Option<seq<HistoryItem>>
    const decimal: int -> string
    var history: seq<HistoryItem>
    var storage: map<string, string>

    /** The panel mounts with an empty list over whatever storage holds. */
    constructor (storage: map<string, string>, serialize: seq<HistoryItem> -> string,
                 parse: string -> Option<seq<HistoryItem>>, decimal: int -> string)
      ensures this.storage == storage && history == []
      ensures this.serialize == serialize && this.parse == parse && this.decimal == decimal
    {
      this.storage := storage;
      this.serialize := serialize;
      this.parse := parse;
      this.decimal := decimal;
      history := [];
    }

    /**
     * The mount effect: a stored, non-empty value that parses replaces the
     * list; a missing, empty or unparsable one leaves it as it is.
     */
    method Load()
      modifies this`history
      ensures STORAGE_KEY in storage && storage[STORAGE_KEY] != "" && parse(storage[STORAGE_KEY]).Some? ==>
                history == parse(storage[STORAGE_KEY]).value
      ensures !(STORAGE_KEY in storage && storage[STORAGE_KEY] != "" && parse(storage[STORAGE_KEY]).Some?) ==>
                history == old(history)
    {
      var saved := if STORAGE_KEY in storage then Some(storage[STORAGE_KEY]) else None;
      if Truthy(saved) {
        var parsed := parse(saved.value);
        if parsed.Some? {
          history := parsed.value;
        }
      }
    }

    /** `saveBadge(url, markdown, name)` at clock reading `now`; the new list is stored. */
    method SaveBadge(url: string, markdown: string, name: Option<string>, now: int)
      modifies this`history, this`storage
      ensures history == Saved(old(history), HistoryItem(decimal(now), url, markdown, now, name))
      ensures storage == old(storage)[STORAGE_KEY := serialize(history)]
      ensures RoundTrip(serialize, parse) ==> Reloaded(storage, parse) == history
    {
      var item := HistoryItem(decimal(now), url, markdown, now, name);
      history := Saved(history, item);
      storage := storage[STORAGE_KEY := serialize(history)];
    }

    /** `deleteBadge(id)`; the new list is stored. */
    method DeleteBadge(id: string)
      modifies this`history, this`storage
      ensures history == Deleted(old(history), id)
      ensures storage == old(storage)[STORAGE_KEY := serialize(history)]
      ensures RoundTrip(serialize, parse) ==> Reloaded(storage, parse) == history
    {
      history := Deleted(history, id);
      storage := storage[STORAGE_KEY := serialize(history)];
    }

    /** `clearHistory()`: the list is emptied and the key removed. */
    method ClearHistory()
      modifies this`history, this`storage
      ensures history == [] && storage == old(storage) - {STORAGE_KEY}
      ensures Reloaded(storage, parse) == history
    {
      history := [];
      storage := storage - {STORAGE_KEY};
    }
  }
}
