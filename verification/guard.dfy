/**
  The in-flight guard: a Redis list per chat, under the key
  `gpt_user:<chat_id>`, holding the query texts being answered for that
  chat. A request registers its text at the head of the list unless the
  same text is already there, and removes one occurrence when it finishes.
  Redis is a map from key to list; a list that becomes empty is deleted,
  and reading a missing key gives the empty list.
*/
module InFlightGuard {
  import opened Util
  import opened Seqs
  import opened Errors

  type Store = map<string, seq<string>>

  const KeyPrefix: string := "gpt_user:"

  /** `f'gpt_user:{chat_id}'`, with the chat id in its printed form. */
  function GuardKey(chatId: string): string {
    KeyPrefix + chatId
  }

  /** Different chats use different lists. */
  lemma GuardKeyInjective(a: string, b: string)
    requires GuardKey(a) == GuardKey(b)
    ensures a == b
  {
    assert a == GuardKey(a)[|KeyPrefix|..];
    assert b == GuardKey(b)[|KeyPrefix|..];
  }

  /** `LRANGE key 0 -1`. */
  function Range(store: Store, key: string): seq<string> {
    if key in store then store[key] else []
  }

  /** Redis never keeps an empty list under a key. */
  predicate NoEmptyLists(store: Store) {
    forall key :: key in store ==> store[key] != []
  }

  /** `LPUSH key value`. */
  function Push(store: Store, key: string, value: string): (r: Store)
    ensures Range(r, key) == [value] + Range(store, key)
    ensures forall k :: k != key ==> Range(r, k) == Range(store, k)
    ensures NoEmptyLists(store) ==> NoEmptyLists(r)
  {
    store[key := [value] + Range(store, key)]
  }

  /** `LREM key 1 value`: drops the first occurrence from the head, deleting
      the key when the list becomes empty. */
  function RemoveOne(store: Store, key: string, value: string): (r: Store)
    ensures Range(r, key) == RemoveFirst(Range(store, key), value)
    ensures forall k :: k != key ==> Range(r, k) == Range(store, k)
    ensures NoEmptyLists(store) ==> NoEmptyLists(r)
  {
    var rest := RemoveFirst(Range(store, key), value);
    if rest == [] then store - {key} else store[key := rest]
  }

  const InWorkMessage: string := "Запрос уже находится в работе."

  /** `check_in_works`: rejects a text already registered for the chat with
      `InWorkError`, leaving the store as it was, and otherwise registers it
      at the head of the chat's list. */
  function Acquire(store: Store, chatId: string, query: string): (r: Result<Store, Error>)
    ensures r.Err? <==> query in Range(store, GuardKey(chatId))
    ensures r.Err? ==> r.error == Raise(InWork, InWorkMessage)
    ensures r.Ok? ==> Range(r.value, GuardKey(chatId)) == [query] + Range(store, GuardKey(chatId))
    ensures r.Ok? ==> forall k :: k != GuardKey(chatId) ==> Range(r.value, k) == Range(store, k)
    ensures r.Ok? && NoEmptyLists(store) ==> NoEmptyLists(r.value)
  {
    var key := GuardKey(chatId);
    if query in Range(store, key) then Err(Raise(InWork, InWorkMessage))
    else Ok(Push(store, key, query))
  }

  /** `del_mess_in_redis`: removes one occurrence of the text from the chat's
      list; nothing happens when it is not there. */
  function Release(store: Store, chatId: string, query: string): (r: Store)
    ensures Range(r, GuardKey(chatId)) == RemoveFirst(Range(store, GuardKey(chatId)), query)
    ensures query in Range(store, GuardKey(chatId)) ==>
      multiset(Range(r, GuardKey(chatId))) == multiset(Range(store, GuardKey(chatId))) - multiset{query}
    ensures forall k :: k != GuardKey(chatId) ==> Range(r, k) == Range(store, k)
    ensures NoEmptyLists(store) ==> NoEmptyLists(r)
  {
    RemoveFirstMultiset(Range(store, GuardKey(chatId)), query);
    RemoveOne(store, GuardKey(chatId), query)
  }

  /** Releasing a text that is not registered changes nothing. */
  lemma ReleaseAbsent(store: Store, chatId: string, query: string)
    requires NoEmptyLists(store)
    requires query !in Range(store, GuardKey(chatId))
    ensures Release(store, chatId, query) == store
  {
    var key := GuardKey(chatId);
    var r := Release(store, chatId, query);
    if key in store {
      assert r == store[key := store[key]];
    }
  }

  /** A successful acquire followed by the release of the same text restores
      the store exactly. */
  lemma AcquireThenRelease(store: Store, chatId: string, query: string)
    requires NoEmptyLists(store)
    requires Acquire(store, chatId, query).Ok?
    ensures Release(Acquire(store, chatId, query).value, chatId, query) == store
  {
    var key := GuardKey(chatId);
    var pushed := store[key := [query] + Range(store, key)];
    assert Acquire(store, chatId, query).value == pushed;
    PushThenRemove(store, key, query);
  }

  lemma PushThenRemove(store: Store, key: string, query: string)
    requires NoEmptyLists(store)
    ensures RemoveOne(store[key := [query] + Range(store, key)], key, query) == store
  {
    var before := Range(store, key);
    var pushed := store[key := [query] + before];
    HeadRemoved(query, before);
    assert Range(pushed, key) == [query] + before;
    if key in store {
      assert before != [];
      assert RemoveOne(pushed, key, query) == pushed[key := before];
      RestoreEntry(store, key, [query] + before);
    } else {
      assert before == [];
      assert RemoveOne(pushed, key, query) == pushed - {key};
      DropNewEntry(store, key, [query]);
    }
  }

  lemma HeadRemoved(x: string, xs: seq<string>)
    ensures RemoveFirst([x] + xs, x) == xs
  {
    assert ([x] + xs)[0] == x;
    assert ([x] + xs)[1..] == xs;
  }

  lemma RestoreEntry(store: Store, key: string, v: seq<string>)
    requires key in store
    ensures store[key := v][key := store[key]] == store
  {
  }

  lemma DropNewEntry(store: Store, key: string, v: seq<string>)
    requires key !in store
    ensures store[key := v] - {key} == store
  {
  }
}
