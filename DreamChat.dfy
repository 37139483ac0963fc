/** The logic of the chat screen (frontend/app/dreamchat.tsx) apart from its rendering:
    the history list the snapshot listener builds, the guard and the state changes of
    "send", and the preview shown for each history entry. */
module DreamChat {
  import opened Wrappers

  /** The id used for the history when nobody is signed in. */
  const AnonymousId := "anonymous_dreamer"

  /** The model name stored with each conversation. */
  const ModelName := "phi3:mini"

  /** What the screen shows when the model call or the save throws. */
  const SendError := "Error: An issue occurred during analysis or saving to Firebase. Check your Ollama connection."

  /** The signed-in user, reduced to its uid. */
  datatype User = User(uid: string)

  /** The fields of a stored conversation; the server timestamp is an integer here. */
  datatype DreamData = DreamData(userId: string, prompt: string, response: string, timestamp: int, model: string)

  /** A document of the `dreams` collection: its id and its fields. */
  datatype StoredDream = StoredDream(docId: nat, data: DreamData)

  /** A history item: the document's fields with its id. */
  datatype Entry = Entry(id: nat, prompt: string, response: string, timestamp: int, userId: string)

  /** `user ? user.uid : 'anonymous_dreamer'`. */
  function EffectiveUserId(user: Option<User>): string {
    if user.Some? then user.value.uid else AnonymousId
  }

  /** `{ id: doc.id, ...data }`. */
  function EntryOf(d: StoredDream): Entry {
    Entry(d.docId, d.data.prompt, d.data.response, d.data.timestamp, d.data.userId)
  }

  /** The entries of the documents that belong to `userId`, in snapshot order. */
  function OwnEntries(docs: seq<StoredDream>, userId: string): seq<Entry> {
    if docs == [] then []
    else
      var last := docs[|docs| - 1];
      OwnEntries(docs[..|docs| - 1], userId) + (if last.data.userId == userId then [EntryOf(last)] else [])
  }

  /** An entry is among the own entries exactly when it is the entry of a document whose
      `userId` is the given one. */
  lemma {:induction false} OwnEntriesMembers(docs: seq<StoredDream>, userId: string)
    ensures forall e :: e in OwnEntries(docs, userId) <==>
      exists i | 0 <= i < |docs| :: docs[i].data.userId == userId && e == EntryOf(docs[i])
  {
    if docs != [] {
      var init := docs[..|docs| - 1];
      OwnEntriesMembers(init, userId);
      forall e | e in OwnEntries(docs, userId)
        ensures exists i | 0 <= i < |docs| :: docs[i].data.userId == userId && e == EntryOf(docs[i])
      {
        if e in OwnEntries(init, userId) {
          var i :| 0 <= i < |init| && init[i].data.userId == userId && e == EntryOf(init[i]);
          assert docs[i] == init[i];
        }
      }
      forall e, i | 0 <= i < |docs| && docs[i].data.userId == userId && e == EntryOf(docs[i])
        ensures e in OwnEntries(docs, userId)
      {
        if i < |init| {
          assert init[i] == docs[i];
        }
      }
    }
  }

  /** Most recent first: timestamps never increase along the list. */
  predicate NewestFirst(s: seq<Entry>) {
    forall i, j | 0 <= i < j < |s| :: s[i].timestamp >= s[j].timestamp
  }

  /** Places `x` before the first element that is not more recent than it. */
  function Insert(x: Entry, s: seq<Entry>): seq<Entry> {
    if s == [] || s[0].timestamp <= x.timestamp then [x] + s
    else [s[0]] + Insert(x, s[1..])
  }

  /** `fetchedHistory.sort((a, b) => b.timestamp - a.timestamp)`: the library sort is
      stable, so it is specified here by a stable insertion sort. */
  function SortByRecency(s: seq<Entry>): seq<Entry> {
    if s == [] then [] else Insert(s[0], SortByRecency(s[1..]))
  }

  /** The elements with timestamp `t`, in order. */
  function WithTimestamp(s: seq<Entry>, t: int): seq<Entry> {
    if s == [] then []
    else (if s[0].timestamp == t then [s[0]] else []) + WithTimestamp(s[1..], t)
  }

  lemma {:induction false} InsertPermutes(x: Entry, s: seq<Entry>)
    ensures multiset(Insert(x, s)) == multiset(s) + multiset{x}
  {
    if s != [] && s[0].timestamp > x.timestamp {
      InsertPermutes(x, s[1..]);
      assert s == [s[0]] + s[1..];
    }
  }

  lemma {:induction false} InsertKeepsOrder(x: Entry, s: seq<Entry>)
    requires NewestFirst(s)
    ensures NewestFirst(Insert(x, s))
  {
    if s != [] && s[0].timestamp > x.timestamp {
      InsertKeepsOrder(x, s[1..]);
      InsertPermutes(x, s[1..]);
      var rest := Insert(x, s[1..]);
      forall k | 0 <= k < |rest| ensures s[0].timestamp >= rest[k].timestamp {
        assert rest[k] in multiset(rest);
        if rest[k] != x {
          assert rest[k] in multiset(s[1..]);
          var j :| 0 <= j < |s[1..]| && s[1..][j] == rest[k];
          assert s[j + 1] == rest[k];
        }
      }
    }
  }

  lemma {:induction false} InsertStable(x: Entry, s: seq<Entry>, t: int)
    ensures WithTimestamp(Insert(x, s), t)
         == (if x.timestamp == t then [x] else []) + WithTimestamp(s, t)
  {
    if s == [] || s[0].timestamp <= x.timestamp {
      assert ([x] + s)[1..] == s;
    } else {
      InsertStable(x, s[1..], t);
      assert ([s[0]] + Insert(x, s[1..]))[1..] == Insert(x, s[1..]);
    }
  }

  /** The sort puts the most recent first, drops and duplicates nothing, and keeps entries
      with equal timestamps in their original order. */
  lemma {:induction false} SortByRecencySpec(s: seq<Entry>)
    ensures NewestFirst(SortByRecency(s))
    ensures multiset(SortByRecency(s)) == multiset(s)
    ensures forall t :: WithTimestamp(SortByRecency(s), t) == WithTimestamp(s, t)
  {
    if s != [] {
      SortByRecencySpec(s[1..]);
      InsertKeepsOrder(s[0], SortByRecency(s[1..]));
      InsertPermutes(s[0], SortByRecency(s[1..]));
      assert s == [s[0]] + s[1..];
      forall t ensures WithTimestamp(SortByRecency(s), t) == WithTimestamp(s, t) {
        InsertStable(s[0], SortByRecency(s[1..]), t);
      }
    }
  }

  /** The snapshot callback: keeps the documents of the effective user, each with its
      document id, then sorts them most recent first. */
  method BuildHistory(docs: seq<StoredDream>, user: Option<User>) returns (history: seq<Entry>)
    ensures history == SortByRecency(OwnEntries(docs, EffectiveUserId(user)))
  {
    var userId := EffectiveUserId(user);
    var fetched: seq<Entry> := [];
    var i := 0;
    while i < |docs|
      invariant 0 <= i <= |docs|
      invariant fetched == OwnEntries(docs[..i], userId)
    {
      var data := docs[i].data;
      if data.userId == userId {
        fetched := fetched + [EntryOf(docs[i])];
      }
      assert docs[..i + 1][..i] == docs[..i];
      i := i + 1;
    }
    assert docs[..|docs|] == docs;
    history := SortByRecency(fetched);
  }

  /** The history holds exactly the entries of the documents whose `userId` is the
      effective id ("anonymous_dreamer" when nobody is signed in), each with its document
      id; it is most recent first, a permutation of the filtered documents, and entries
      with equal timestamps keep their snapshot order. */
  lemma HistorySpec(docs: seq<StoredDream>, user: Option<User>)
    ensures var history := SortByRecency(OwnEntries(docs, EffectiveUserId(user)));
      && (forall e :: e in history <==>
            exists i | 0 <= i < |docs| :: docs[i].data.userId == EffectiveUserId(user) && e == EntryOf(docs[i]))
      && (user.None? ==> forall e | e in history :: e.userId == AnonymousId)
      && NewestFirst(history)
      && multiset(history) == multiset(OwnEntries(docs, EffectiveUserId(user)))
      && forall t :: WithTimestamp(history, t) == WithTimestamp(OwnEntries(docs, EffectiveUserId(user)), t)
  {
    var own := OwnEntries(docs, EffectiveUserId(user));
    SortByRecencySpec(own);
    OwnEntriesMembers(docs, EffectiveUserId(user));
    forall e ensures e in SortByRecency(own) <==> e in own {
      assert e in SortByRecency(own) <==> e in multiset(SortByRecency(own));
    }
  }

  /** The preview under each history entry: `response.substring(0, 150) + "..."`. */
  function Preview(response: string): (r: string)
    ensures |r| == (if |response| < 150 then |response| else 150) + 3
    ensures r[..|r| - 3] == response[..|r| - 3]
    ensures r[|r| - 3..] == "..."
  {
    (if |response| < 150 then response else response[..150]) + "..."
  }

  /** A saved conversation shows up in the next history of the same user with its prompt and
      response unchanged. */
  lemma SavedIsShown(docs: seq<StoredDream>, user: Option<User>, docId: nat,
                     prompt: string, response: string, now: int)
    ensures Entry(docId, prompt, response, now, EffectiveUserId(user))
      in SortByRecency(OwnEntries(docs + [StoredDream(docId, DreamData(EffectiveUserId(user), prompt, response, now, ModelName))],
                                  EffectiveUserId(user)))
  {
    var all := docs + [StoredDream(docId, DreamData(EffectiveUserId(user), prompt, response, now, ModelName))];
    HistorySpec(all, user);
    assert all[|docs|].data.userId == EffectiveUserId(user);
  }

  /** The screen's state: the input box, the spinner, the latest analysis, and the `dreams`
      collection the history is built from. */
  class ChatScreen {
    var prompt: string
    var loading: bool
    var llmResponse: string
    var dreams: seq<StoredDream>
    var nextDocId: nat
    /** How many times the model has been asked. */
    ghost var modelCalls: nat

    constructor (dreams: seq<StoredDream>, nextDocId: nat)
      ensures this.dreams == dreams && this.nextDocId == nextDocId
      ensures prompt == "" && !loading && llmResponse == "" && modelCalls == 0
    {
      this.dreams := dreams;
      this.nextDocId := nextDocId;
      prompt := "";
      loading := false;
      llmResponse := "";
      modelCalls := 0;
    }

    /** `handleSendPrompt`. The model's answer (or its failure) is `reply`, whether saving
        succeeds is `saved`, and `now` is the server timestamp. An empty prompt changes
        nothing and asks nobody; otherwise the input is cleared, the model is asked once,
        and on success its text is shown and stored with the prompt as typed; any failure
        shows the error message and stores nothing. */
    method HandleSendPrompt(user: Option<User>, reply: Result<string, string>, saved: bool, now: int)
      modifies this
      ensures old(prompt) == "" ==>
        && prompt == old(prompt) && loading == old(loading) && llmResponse == old(llmResponse)
        && dreams == old(dreams) && nextDocId == old(nextDocId) && modelCalls == old(modelCalls)
      ensures old(prompt) != "" ==>
        && prompt == "" && !loading && modelCalls == old(modelCalls) + 1
        && (if reply.Success? && saved then
              && llmResponse == reply.value
              && dreams == old(dreams) + [StoredDream(old(nextDocId),
                                           DreamData(EffectiveUserId(user), old(prompt), reply.value, now, ModelName))]
              && nextDocId == old(nextDocId) + 1
            else
              && llmResponse == SendError
              && dreams == old(dreams) && nextDocId == old(nextDocId))
    {
      if prompt == "" {
        return;
      }
      loading := true;
      var userPrompt := prompt;
      prompt := "";
      var userId := EffectiveUserId(user);
      modelCalls := modelCalls + 1;
      if reply.Failure? {
        llmResponse := SendError;
      } else {
        var responseText := reply.value;
        llmResponse := responseText;
        var conversation := DreamData(userId, userPrompt, responseText, now, ModelName);
        if saved {
          dreams := dreams + [StoredDream(nextDocId, conversation)];
          nextDocId := nextDocId + 1;
        } else {
          llmResponse := SendError;
        }
      }
      loading := false;
    }
  }
}
