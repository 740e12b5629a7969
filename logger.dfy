/**
 * The chat logger page: its state (the input box, the chat history, the staging list and the
 * busy flag) and its handlers. The timer that delays the reply is left out: a turn is started
 * by `HandleSendMessage`, which sets the busy flag and hands over the staging list the callback
 * will read, and completed by `FinishTurn`, the body of the timer's callback, which clears it.
 * Catalog and log store come from `AppContext`.
 */
module Logger {
  import opened Wrappers
  import opened Text
  import opened Catalog
  import opened Matcher
  import AppContext

  datatype Sender = User | Assistant

  datatype ChatMessage = ChatMessage(id: string, text: string, sender: Sender, timestamp: string)

  const Greeting: string := "Hi there! What would you like to track today?"

  /**
   * The scan of a tracking turn, on a copy of the staging list: every category is handed to
   * `ScanCategory` in catalog order.
   */
  method ScanCatalog(text: string, categories: seq<Category>, trackingItems: seq<TrackingItem>)
    returns (newTrackingItems: seq<TrackingItem>, responseParts: seq<string>, updatedSomething: bool)
    ensures Scanned(trackingItems, categories, Matches(text, categories),
                    newTrackingItems, responseParts, updatedSomething)
  {
    newTrackingItems := trackingItems;
    responseParts := [];
    updatedSomething := false;
    var ci := 0;
    ScanStart(text, categories, trackingItems);
    while ci < |categories|
      invariant 0 <= ci <= |categories|
      invariant Scanned(trackingItems, categories, CategoryHits(text, categories, ci),
                        newTrackingItems, responseParts, updatedSomething)
    {
      newTrackingItems, responseParts, updatedSomething :=
        ScanCategory(text, categories, ci, trackingItems, newTrackingItems, responseParts, updatedSomething);
      ci := ci + 1;
    }
  }

  /** One category: when the utterance names it, scan its items; see `ScanItems`. */
  method ScanCategory(text: string, categories: seq<Category>, ci: nat, trackingItems: seq<TrackingItem>,
                      staged: seq<TrackingItem>, parts: seq<string>, updated: bool)
    returns (newTrackingItems: seq<TrackingItem>, responseParts: seq<string>, updatedSomething: bool)
    requires ci < |categories|
    requires Scanned(trackingItems, categories, CategoryHits(text, categories, ci), staged, parts, updated)
    ensures Scanned(trackingItems, categories, CategoryHits(text, categories, ci + 1),
                    newTrackingItems, responseParts, updatedSomething)
  {
    newTrackingItems, responseParts, updatedSomething := staged, parts, updated;
    var category := categories[ci];
    CategoryHitsStep(text, categories, ci);
    if Contains(text, Lower(category.name)) {
      newTrackingItems, responseParts, updatedSomething :=
        ScanItems(text, categories, ci, trackingItems, CategoryHits(text, categories, ci),
                  newTrackingItems, responseParts, updatedSomething);
    } else {
      assert CategoryHits(text, categories, ci + 1) == CategoryHits(text, categories, ci);
    }
  }

  /**
   * What the scan has built from the hits hs: the staging list s with each hit's entry upserted,
   * one reply clause per hit, and the flag that says whether there was any hit.
   */
  ghost predicate Scanned(s: seq<TrackingItem>, cats: seq<Category>, hs: seq<Hit>,
                          staged: seq<TrackingItem>, parts: seq<string>, updated: bool)
  {
    && InRange(cats, hs)
    && staged == StageAll(s, cats, hs)
    && parts == Clauses(cats, hs)
    && (updated <==> hs != [])
  }

  /**
   * The item scan inside a named category. The inputs are what the scan has built from the
   * hits so far; the outputs add this category's hits.
   */
  method ScanItems(text: string, categories: seq<Category>, ci: nat, trackingItems: seq<TrackingItem>,
                   ghost hits: seq<Hit>, staged: seq<TrackingItem>, parts: seq<string>, updated: bool)
    returns (newTrackingItems: seq<TrackingItem>, responseParts: seq<string>, updatedSomething: bool)
    requires ci < |categories| && Scanned(trackingItems, categories, hits, staged, parts, updated)
    ensures Scanned(trackingItems, categories, hits + ItemHits(text, categories, ci, |categories[ci].items|),
                    newTrackingItems, responseParts, updatedSomething)
  {
    newTrackingItems, responseParts, updatedSomething := staged, parts, updated;
    var ii := 0;
    assert hits == hits + ItemHits(text, categories, ci, 0);
    while ii < |categories[ci].items|
      invariant 0 <= ii <= |categories[ci].items|
      invariant Scanned(trackingItems, categories, hits + ItemHits(text, categories, ci, ii),
                        newTrackingItems, responseParts, updatedSomething)
    {
      newTrackingItems, responseParts, updatedSomething :=
        ScanItem(text, categories, ci, ii, trackingItems, hits, newTrackingItems, responseParts, updatedSomething);
      ii := ii + 1;
    }
  }

  /**
   * One item of a named category: when the utterance names it and holds a number, upsert its
   * entry with that number and note one clause of the reply.
   */
  method ScanItem(text: string, categories: seq<Category>, ci: nat, ii: nat, trackingItems: seq<TrackingItem>,
                  ghost hits: seq<Hit>, staged: seq<TrackingItem>, parts: seq<string>, updated: bool)
    returns (newTrackingItems: seq<TrackingItem>, responseParts: seq<string>, updatedSomething: bool)
    requires ci < |categories| && ii < |categories[ci].items|
    requires Scanned(trackingItems, categories, hits + ItemHits(text, categories, ci, ii), staged, parts, updated)
    ensures Scanned(trackingItems, categories, hits + ItemHits(text, categories, ci, ii + 1),
                    newTrackingItems, responseParts, updatedSomething)
  {
    newTrackingItems, responseParts, updatedSomething := staged, parts, updated;
    var category := categories[ci];
    var item := category.items[ii];
    if Contains(text, Lower(item.name)) {
      var matches := FirstNumber(text);
      if matches.Some? {
        var value := matches.value;
        var existingIndex := FindIndex(newTrackingItems, category.id, item.id);
        if existingIndex >= 0 {
          newTrackingItems := newTrackingItems[existingIndex := newTrackingItems[existingIndex].(value := value)];
        } else {
          newTrackingItems := newTrackingItems + [TrackingItem(category.id, item.id, value, None)];
        }
        responseParts := responseParts + [ClauseText(item.name, value, item.unit, category.name)];
        updatedSomething := true;
        assert newTrackingItems == Upsert(staged, Entry(categories, Hit(ci, ii, value)));
        ScanHit(text, categories, ci, ii, trackingItems, hits, staged, parts, updated, value);
        return;
      }
    }
    ScanMiss(text, categories, ci, ii, trackingItems, hits, staged, parts, updated);
  }

  /** An item named in the utterance, which holds the number `value`, adds its hit. */
  lemma ScanHit(text: string, cats: seq<Category>, ci: nat, ii: nat, s: seq<TrackingItem>, hits: seq<Hit>,
                staged: seq<TrackingItem>, parts: seq<string>, updated: bool, value: string)
    requires ci < |cats| && ii < |cats[ci].items|
    requires Scanned(s, cats, hits + ItemHits(text, cats, ci, ii), staged, parts, updated)
    requires Mentions(text, cats[ci].items[ii].name) && FirstNumber(text) == Some(value)
    ensures Scanned(s, cats, hits + ItemHits(text, cats, ci, ii + 1),
                    Upsert(staged, Entry(cats, Hit(ci, ii, value))), parts + [Clause(cats, Hit(ci, ii, value))], true)
  {
    var found := hits + ItemHits(text, cats, ci, ii);
    var h := Hit(ci, ii, value);
    ItemHitsStep(text, cats, ci, ii);
    assert hits + ItemHits(text, cats, ci, ii + 1) == found + [h];
    ScanStep(s, cats, found, h);
  }

  /** An item the utterance does not name, or an utterance without a number, adds no hit. */
  lemma ScanMiss(text: string, cats: seq<Category>, ci: nat, ii: nat, s: seq<TrackingItem>, hits: seq<Hit>,
                 staged: seq<TrackingItem>, parts: seq<string>, updated: bool)
    requires ci < |cats| && ii < |cats[ci].items|
    requires Scanned(s, cats, hits + ItemHits(text, cats, ci, ii), staged, parts, updated)
    requires !Mentions(text, cats[ci].items[ii].name) || FirstNumber(text).None?
    ensures Scanned(s, cats, hits + ItemHits(text, cats, ci, ii + 1), staged, parts, updated)
  {
    ItemHitsStep(text, cats, ci, ii);
    assert hits + ItemHits(text, cats, ci, ii + 1) == hits + ItemHits(text, cats, ci, ii);
  }

  /** Before any category is scanned there is no hit, and nothing is staged, said or reported. */
  lemma ScanStart(text: string, cats: seq<Category>, s: seq<TrackingItem>)
    ensures Scanned(s, cats, CategoryHits(text, cats, 0), s, [], false)
  {
    assert Clauses(cats, []) == [];
  }

  /** The scan of category n adds the hits of its items when the utterance names it, else none. */
  lemma CategoryHitsStep(text: string, cats: seq<Category>, n: nat)
    requires n < |cats|
    ensures CategoryHits(text, cats, n + 1) == CategoryHits(text, cats, n)
              + (if Mentions(text, cats[n].name) then ItemHits(text, cats, n, |cats[n].items|) else [])
  {
  }

  /** The scan of item n of category ci adds at most that item's hit. */
  lemma ItemHitsStep(text: string, cats: seq<Category>, ci: nat, n: nat)
    requires ci < |cats| && n < |cats[ci].items|
    ensures ItemHits(text, cats, ci, n + 1) == ItemHits(text, cats, ci, n)
              + (if Mentions(text, cats[ci].items[n].name) && FirstNumber(text).Some?
                 then [Hit(ci, n, FirstNumber(text).value)] else [])
  {
  }

  /** Appending one hit upserts its entry and adds its clause. */
  lemma ScanStep(s: seq<TrackingItem>, cats: seq<Category>, hs: seq<Hit>, h: Hit)
    requires InRange(cats, hs) && h.ci < |cats| && h.ii < |cats[h.ci].items|
    ensures InRange(cats, hs + [h])
    ensures StageAll(s, cats, hs + [h]) == Upsert(StageAll(s, cats, hs), Entry(cats, h))
    ensures Clauses(cats, hs + [h]) == Clauses(cats, hs) + [Clause(cats, h)]
  {
    assert (hs + [h])[..|hs|] == hs;
  }

  function ConfirmationText(n: nat): string
  {
    "Great! I've logged " + NatToString(n) + " " + (if n == 1 then "item" else "items")
    + " for you. What else would you like to track?"
  }

  /** The records one commit appends: one per staged entry, in staging order. */
  function CommittedLogs(items: seq<TrackingItem>, ids: seq<string>, stamps: seq<string>): (r: seq<LogEntry>)
    requires |ids| == |items| && |stamps| == |items|
  {
    seq(|items|, k requires 0 <= k < |items| =>
      LogEntry(ids[k], items[k].categoryId, items[k].itemId, items[k].value, stamps[k], items[k].note))
  }

  /**
   * A commit of a duplicate-free staging list logs each (category, item) pair at most once,
   * and logs exactly the staged pairs, values and notes, in staging order.
   */
  lemma CommittedLogsMirrorStaging(items: seq<TrackingItem>, ids: seq<string>, stamps: seq<string>)
    requires |ids| == |items| && |stamps| == |items|
    requires NoDup(items)
    ensures |CommittedLogs(items, ids, stamps)| == |items|
    ensures forall k :: 0 <= k < |items| ==>
              var log := CommittedLogs(items, ids, stamps)[k];
              log.categoryId == items[k].categoryId && log.itemId == items[k].itemId
              && log.value == items[k].value && log.note == items[k].note
    ensures forall j, k :: 0 <= j < k < |items| ==>
              var logs := CommittedLogs(items, ids, stamps);
              (logs[j].categoryId, logs[j].itemId) != (logs[k].categoryId, logs[k].itemId)
  {
    var logs := CommittedLogs(items, ids, stamps);
    forall j, k | 0 <= j < k < |items|
      ensures (logs[j].categoryId, logs[j].itemId) != (logs[k].categoryId, logs[k].itemId)
    {
      assert PairOf(items[j]) != PairOf(items[k]);
    }
  }

  /**
   * The log store after a commit when, as in the page's handler, every `addLogEntry` call of
   * one click writes the rendered `snapshot` plus its own record: each write replaces the one
   * before it. `state` is the store as left by the calls so far.
   */
  function SnapshotCommit(snapshot: seq<LogEntry>, state: seq<LogEntry>, items: seq<TrackingItem>,
                          ids: seq<string>, stamps: seq<string>): seq<LogEntry>
    requires |ids| == |items| && |stamps| == |items|
    decreases |items|
  {
    if items == [] then state
    else
      var entry := LogEntry(ids[0], items[0].categoryId, items[0].itemId, items[0].value, stamps[0], items[0].note);
      SnapshotCommit(snapshot, snapshot + [entry], items[1..], ids[1..], stamps[1..])
  }

  /** Under snapshot writes only the record of the last staged entry reaches the store. */
  lemma {:induction false} SnapshotCommitKeepsLast(snapshot: seq<LogEntry>, state: seq<LogEntry>,
                                                   items: seq<TrackingItem>, ids: seq<string>, stamps: seq<string>)
    requires |ids| == |items| && |stamps| == |items| && items != []
    ensures SnapshotCommit(snapshot, state, items, ids, stamps)
         == snapshot + [CommittedLogs(items, ids, stamps)[|items| - 1]]
    decreases |items|
  {
    if |items| > 1 {
      var entry := LogEntry(ids[0], items[0].categoryId, items[0].itemId, items[0].value, stamps[0], items[0].note);
      SnapshotCommitKeepsLast(snapshot, snapshot + [entry], items[1..], ids[1..], stamps[1..]);
      assert CommittedLogs(items[1..], ids[1..], stamps[1..])[|items| - 2]
          == CommittedLogs(items, ids, stamps)[|items| - 1];
    }
  }

  /**
   * With two or more staged entries the snapshot commit loses records: the store grows by one
   * where the append commit grows it by one per entry.
   */
  lemma SnapshotCommitLosesEntries(logs: seq<LogEntry>, items: seq<TrackingItem>, ids: seq<string>, stamps: seq<string>)
    requires |ids| == |items| && |stamps| == |items| && |items| >= 2
    ensures |SnapshotCommit(logs, logs, items, ids, stamps)| == |logs| + 1
    ensures |logs + CommittedLogs(items, ids, stamps)| == |logs| + |items|
    ensures SnapshotCommit(logs, logs, items, ids, stamps) != logs + CommittedLogs(items, ids, stamps)
  {
    SnapshotCommitKeepsLast(logs, logs, items, ids, stamps);
  }

  /**
   * A tracking turn staged onto the list captured when its message was sent brings back an
   * entry that was removed or committed in the meantime, unless the message names that pair
   * again; staged onto the current list, the entry stays gone.
   */
  lemma StaleTurnRestages(captured: seq<TrackingItem>, current: seq<TrackingItem>, text: string,
                          cats: seq<Category>, p: (string, string))
    requires NoDup(captured) && NoDup(current)
    requires p in Pairs(captured) && p !in Pairs(current)
    requires forall ci, ii, v :: Named(text, cats, ci, ii, v) ==> p != (cats[ci].id, cats[ci].items[ii].id)
    ensures p in Pairs(StageAll(captured, cats, Matches(text, cats)))
    ensures p !in Pairs(StageAll(current, cats, Matches(text, cats)))
  {
    StagingTurn(captured, text, cats);
    StagingTurn(current, text, cats);
  }

  class LoggerPage {
    var input: string
    var messages: seq<ChatMessage>
    var trackingItems: seq<TrackingItem>
    var isLoading: bool

    /** The staging list never holds two entries for one (category, item) pair. */
    ghost predicate Valid()
      reads this
    {
      NoDup(trackingItems)
    }

    constructor (now: string)
      ensures Valid()
      ensures input == "" && trackingItems == [] && !isLoading
      ensures messages == [ChatMessage("initial", Greeting, Assistant, now)]
    {
      input := "";
      messages := [ChatMessage("initial", Greeting, Assistant, now)];
      trackingItems := [];
      isLoading := false;
    }

    /** The input box's change handler. */
    method SetInput(value: string)
      modifies this
      ensures input == value
      ensures messages == old(messages) && trackingItems == old(trackingItems) && isLoading == old(isLoading)
    {
      input := value;
    }

    /**
     * `handleSendMessage`: a blank input changes nothing; otherwise the trimmed text becomes
     * a user message, the input is cleared and the page turns busy. The message handed to the
     * delayed callback is returned, with the staging list of the render that scheduled it,
     * which that callback reads.
     */
    method HandleSendMessage(id: string, now: string) returns (sent: Option<ChatMessage>, captured: seq<TrackingItem>)
      requires Valid()
      modifies this
      ensures Valid() && NoDup(captured)
      ensures trackingItems == old(trackingItems) && captured == trackingItems
      ensures Trim(old(input)) == "" ==>
                && sent == None
                && input == old(input) && messages == old(messages) && isLoading == old(isLoading)
      ensures Trim(old(input)) != "" ==>
                && sent == Some(ChatMessage(id, Trim(old(input)), User, now))
                && messages == old(messages) + [sent.value]
                && input == "" && isLoading
    {
      captured := trackingItems;
      if Trim(input) == "" {
        return None, captured;
      }
      var userMessage := ChatMessage(id, Trim(input), User, now);
      messages := messages + [userMessage];
      input := "";
      isLoading := true;
      sent := Some(userMessage);
    }

    /**
     * `processUserMessage`: classify the lower-cased text, stage the matches of a tracking
     * request onto a copy of `captured`, the staging list of the render the call belongs to,
     * and append the one assistant reply.
     */
    method ProcessUserMessage(message: ChatMessage, captured: seq<TrackingItem>, categories: seq<Category>,
                              replyId: string, now: string)
      requires Valid() && NoDup(captured)
      modifies this
      ensures Valid()
      ensures trackingItems ==
                if Classify(Lower(message.text)) == Tracking
                then StageAll(captured, categories, Matches(Lower(message.text), categories))
                else old(trackingItems)
      ensures messages == old(messages) + [ChatMessage(replyId, Reply(Lower(message.text), categories), Assistant, now)]
      ensures input == old(input) && isLoading == old(isLoading)
    {
      var text := Lower(message.text);
      if HasTrackingWord(text) {
        var newTrackingItems, responseParts, updatedSomething := ScanCatalog(text, categories, captured);
        StagingTurn(captured, text, categories);
        trackingItems := newTrackingItems;
        assert Reply(text, categories) == TrackReply(categories, Matches(text, categories));
        if !updatedSomething {
          var availableCategories := Join(CategoryNames(categories), ", ");
          messages := messages + [ChatMessage(replyId,
            "I'm not sure what you want to track. You can track items from these categories: "
            + availableCategories + ". Can you be more specific?", Assistant, now)];
        } else {
          messages := messages + [ChatMessage(replyId, Join(responseParts, " ") + ClosingQuestion, Assistant, now)];
        }
      } else if HasHelpWord(text) {
        assert Reply(text, categories) == HelpReply;
        messages := messages + [ChatMessage(replyId, HelpReply, Assistant, now)];
      } else {
        messages := messages + [ChatMessage(replyId, FallbackReply, Assistant, now)];
      }
    }

    /**
     * The timer's callback as written: process the message against the staging list captured
     * when it was sent, then clear the busy flag. A removal or a commit made in between is
     * overwritten (see `StaleTurnRestages`).
     */
    method FinishTurn(message: ChatMessage, captured: seq<TrackingItem>, categories: seq<Category>,
                      replyId: string, now: string)
      requires Valid() && NoDup(captured)
      modifies this
      ensures Valid()
      ensures trackingItems ==
                if Classify(Lower(message.text)) == Tracking
                then StageAll(captured, categories, Matches(Lower(message.text), categories))
                else old(trackingItems)
      ensures messages == old(messages) + [ChatMessage(replyId, Reply(Lower(message.text), categories), Assistant, now)]
      ensures input == old(input) && !isLoading
    {
      ProcessUserMessage(message, captured, categories, replyId, now);
      isLoading := false;
    }

    /**
     * The timer's callback with the staging update made against the current list (a functional
     * state update): an entry is staged after the turn only if it was staged before it or the
     * message names its pair.
     */
    method FinishTurnOnCurrent(message: ChatMessage, categories: seq<Category>, replyId: string, now: string)
      requires Valid()
      modifies this
      ensures Valid()
      ensures trackingItems ==
                if Classify(Lower(message.text)) == Tracking
                then StageAll(old(trackingItems), categories, Matches(Lower(message.text), categories))
                else old(trackingItems)
      ensures forall p :: p in Pairs(trackingItems) <==>
                p in Pairs(old(trackingItems))
                || (Classify(Lower(message.text)) == Tracking
                    && exists ci, ii, v :: Named(Lower(message.text), categories, ci, ii, v)
                                           && p == (categories[ci].id, categories[ci].items[ii].id))
      ensures messages == old(messages) + [ChatMessage(replyId, Reply(Lower(message.text), categories), Assistant, now)]
      ensures input == old(input) && !isLoading
    {
      StagingTurn(trackingItems, Lower(message.text), categories);
      FinishTurn(message, trackingItems, categories, replyId, now);
    }

    /**
     * `handleLogEntries`: with nothing staged nothing happens; otherwise every staged entry is
     * handed to the store's `addLogEntry` in order (ids[k] and stamps[k] being the clock readings
     * of the k-th call), the staging list is emptied and one confirmation is appended.
     */
    method HandleLogEntries(store: AppContext.AppStore, ids: seq<string>, stamps: seq<string>,
                            messageId: string, now: string)
      requires Valid()
      requires |ids| == |trackingItems| && |stamps| == |trackingItems|
      modifies this, store
      ensures Valid()
      ensures store.categories == old(store.categories)
      ensures input == old(input) && isLoading == old(isLoading)
      ensures old(trackingItems) == [] ==>
                store.logs == old(store.logs) && messages == old(messages) && trackingItems == []
      ensures old(trackingItems) != [] ==>
                && store.logs == old(store.logs) + CommittedLogs(old(trackingItems), ids, stamps)
                && trackingItems == []
                && messages == old(messages)
                     + [ChatMessage(messageId, ConfirmationText(|old(trackingItems)|), Assistant, now)]
    {
      if |trackingItems| == 0 {
        return;
      }
      var i := 0;
      while i < |trackingItems|
        invariant 0 <= i <= |trackingItems|
        invariant trackingItems == old(trackingItems) && messages == old(messages)
        invariant input == old(input) && isLoading == old(isLoading)
        invariant store.categories == old(store.categories)
        invariant store.logs == old(store.logs) + CommittedLogs(trackingItems[..i], ids[..i], stamps[..i])
      {
        var item := trackingItems[i];
        store.AddLogEntry(ids[i], item.categoryId, item.itemId, item.value, item.note, stamps[i]);
        assert CommittedLogs(trackingItems[..i + 1], ids[..i + 1], stamps[..i + 1])
            == CommittedLogs(trackingItems[..i], ids[..i], stamps[..i])
               + [LogEntry(ids[i], item.categoryId, item.itemId, item.value, stamps[i], item.note)];
        i := i + 1;
      }
      assert trackingItems[..i] == trackingItems && ids[..i] == ids && stamps[..i] == stamps;
      var count := |trackingItems|;
      trackingItems := [];
      messages := messages + [ChatMessage(messageId, ConfirmationText(count), Assistant, now)];
    }

    /** The staging list's delete button: `trackingItems.filter((_, i) => i !== index)`. */
    method RemoveTrackingItem(index: int)
      requires Valid()
      modifies this
      ensures Valid()
      ensures trackingItems == RemoveAt(old(trackingItems), index)
      ensures input == old(input) && messages == old(messages) && isLoading == old(isLoading)
    {
      RemoveAtKeepsNoDup(trackingItems, index);
      trackingItems := RemoveAt(trackingItems, index);
    }
  }
}
