/**
 * The pure logic of the chat logger: intent classification, the two-stage scan of an
 * utterance against the catalog, the staging list's upsert and index removal, the reply
 * texts, and the lookup of a staged entry's category and item. The text handed to these
 * functions is the user's message already lower-cased.
 */
module Matcher {
  import opened Wrappers
  import opened Text
  import opened Catalog

  /** An entry waiting in the staging list. */
  datatype TrackingItem = TrackingItem(categoryId: string, itemId: string, value: string, note: Option<string>)

  function PairOf(t: TrackingItem): (string, string)
  {
    (t.categoryId, t.itemId)
  }

  ghost function Pairs(s: seq<TrackingItem>): set<(string, string)>
  {
    set t | t in s :: PairOf(t)
  }

  /** At most one staged entry per (categoryId, itemId). */
  ghost predicate NoDup(s: seq<TrackingItem>)
  {
    forall j, k :: 0 <= j < k < |s| ==> PairOf(s[j]) != PairOf(s[k])
  }

  // ---------------------------------------------------------------- intent

  datatype Intent = Tracking | Help | Fallback

  predicate HasTrackingWord(text: string)
  {
    Contains(text, "track") || Contains(text, "log") || Contains(text, "record")
  }

  predicate HasHelpWord(text: string)
  {
    Contains(text, "help") || Contains(text, "how") || Contains(text, "?")
  }

  /** Keyword classification, tracking words taking precedence over help words. */
  function Classify(text: string): (r: Intent)
    ensures r == Tracking <==> HasTrackingWord(text)
    ensures r == Help <==> !HasTrackingWord(text) && HasHelpWord(text)
  {
    if HasTrackingWord(text) then Tracking
    else if HasHelpWord(text) then Help
    else Fallback
  }

  /**
   * Precedence is stable under extension: whatever is said before or after a tracking
   * request, help words included, it stays a tracking request.
   */
  lemma TrackingWordsWin(text: string, extra: string)
    requires Classify(text) == Tracking
    ensures Classify(text + extra) == Tracking && Classify(extra + text) == Tracking
  {
    if Contains(text, "track") {
      ContainsExtended(text, extra, "track");
    } else if Contains(text, "log") {
      ContainsExtended(text, extra, "log");
    } else {
      ContainsExtended(text, extra, "record");
    }
  }

  /** Help words that do not bring a tracking word with them always give the help reply. */
  lemma HelpWordsBeatFallback(text: string, extra: string)
    requires Classify(text) == Help && !HasTrackingWord(text + extra)
    ensures Classify(text + extra) == Help
  {
    if Contains(text, "help") {
      ContainsExtended(text, extra, "help");
    } else if Contains(text, "how") {
      ContainsExtended(text, extra, "how");
    } else {
      ContainsExtended(text, extra, "?");
    }
  }

  // ---------------------------------------------------------------- the two-stage scan

  /** A candidate: item ii of category ci is named, with the utterance's first number as value. */
  datatype Hit = Hit(ci: nat, ii: nat, value: string)

  /** `text.includes(name.toLowerCase())`. */
  predicate Mentions(text: string, name: string)
  {
    Contains(text, Lower(name))
  }

  predicate Before(a: Hit, b: Hit)
  {
    a.ci < b.ci || (a.ci == b.ci && a.ii < b.ii)
  }

  ghost predicate InScanOrder(hs: seq<Hit>)
  {
    forall k, l :: 0 <= k < l < |hs| ==> Before(hs[k], hs[l])
  }

  ghost predicate InRange(cats: seq<Category>, hs: seq<Hit>)
  {
    forall h :: h in hs ==> h.ci < |cats| && h.ii < |cats[h.ci].items|
  }

  /** The hits among the first n items of category ci, in item order. */
  function ItemHits(text: string, cats: seq<Category>, ci: nat, n: nat): (r: seq<Hit>)
    requires ci < |cats| && n <= |cats[ci].items|
    ensures forall h :: h in r ==> h.ci == ci && h.ii < n
    decreases n
  {
    if n == 0 then []
    else
      ItemHits(text, cats, ci, n - 1)
      + (if Mentions(text, cats[ci].items[n - 1].name) then
           match FirstNumber(text)
           case Some(v) => [Hit(ci, n - 1, v)]
           case None => []
         else [])
  }

  /** The hits among the first n categories: items are looked at only in named categories. */
  function CategoryHits(text: string, cats: seq<Category>, n: nat): (r: seq<Hit>)
    requires n <= |cats|
    ensures forall h :: h in r ==> h.ci < n && h.ii < |cats[h.ci].items|
    decreases n
  {
    if n == 0 then []
    else
      CategoryHits(text, cats, n - 1)
      + (if Mentions(text, cats[n - 1].name) then ItemHits(text, cats, n - 1, |cats[n - 1].items|) else [])
  }

  /** Every candidate of the utterance, in category-then-item scan order. */
  function Matches(text: string, cats: seq<Category>): seq<Hit>
  {
    CategoryHits(text, cats, |cats|)
  }

  lemma {:induction false} ItemHitsInOrder(text: string, cats: seq<Category>, ci: nat, n: nat)
    requires ci < |cats| && n <= |cats[ci].items|
    ensures InScanOrder(ItemHits(text, cats, ci, n))
    decreases n
  {
    if n > 0 {
      ItemHitsInOrder(text, cats, ci, n - 1);
      var prev := ItemHits(text, cats, ci, n - 1);
      var r := ItemHits(text, cats, ci, n);
      assert r[..|prev|] == prev;
      forall k, l | 0 <= k < l < |r| ensures Before(r[k], r[l]) {
        if l >= |prev| {
          assert r[k] in prev;
        }
      }
    }
  }

  lemma {:induction false} CategoryHitsInOrder(text: string, cats: seq<Category>, n: nat)
    requires n <= |cats|
    ensures InScanOrder(CategoryHits(text, cats, n))
    decreases n
  {
    if n > 0 {
      CategoryHitsInOrder(text, cats, n - 1);
      ItemHitsInOrder(text, cats, n - 1, |cats[n - 1].items|);
      var prev := CategoryHits(text, cats, n - 1);
      var last := if Mentions(text, cats[n - 1].name) then ItemHits(text, cats, n - 1, |cats[n - 1].items|) else [];
      ConcatInScanOrder(prev, last);
    }
  }

  /** Two runs in scan order, the first wholly before the second, make one run in scan order. */
  lemma ConcatInScanOrder(a: seq<Hit>, b: seq<Hit>)
    requires InScanOrder(a) && InScanOrder(b)
    requires forall x, y :: x in a && y in b ==> Before(x, y)
    ensures InScanOrder(a + b)
  {
    var r := a + b;
    forall k, l | 0 <= k < l < |r| ensures Before(r[k], r[l]) {
      if k < |a| && l >= |a| {
        assert r[k] in a && r[l] in b;
      } else if k >= |a| {
        assert r[k] == b[k - |a|] && r[l] == b[l - |a|];
      }
    }
  }

  /** The candidates come out in category-then-item scan order, each pair at most once. */
  lemma MatchesInScanOrder(text: string, cats: seq<Category>)
    ensures InScanOrder(Matches(text, cats))
  {
    CategoryHitsInOrder(text, cats, |cats|);
  }

  /** Item ii of category ci yields a candidate with value v. */
  ghost predicate Named(text: string, cats: seq<Category>, ci: int, ii: int, v: string)
  {
    && 0 <= ci < |cats| && 0 <= ii < |cats[ci].items|
    && Mentions(text, cats[ci].name)
    && Mentions(text, cats[ci].items[ii].name)
    && FirstNumber(text) == Some(v)
  }

  lemma {:induction false} ItemHitsIff(text: string, cats: seq<Category>, ci: nat, n: nat, h: Hit)
    requires ci < |cats| && n <= |cats[ci].items|
    ensures h in ItemHits(text, cats, ci, n) <==>
              h.ci == ci && h.ii < n && Mentions(text, cats[ci].items[h.ii].name) && FirstNumber(text) == Some(h.value)
    decreases n
  {
    if n > 0 {
      ItemHitsIff(text, cats, ci, n - 1, h);
      var prev := ItemHits(text, cats, ci, n - 1);
      var named := Mentions(text, cats[ci].items[n - 1].name);
      var num := FirstNumber(text);
      var last: seq<Hit> := if named && num.Some? then [Hit(ci, n - 1, num.value)] else [];
      assert ItemHits(text, cats, ci, n) == prev + last;
      assert h in prev + last <==> h in prev || h in last;
    }
  }

  lemma {:induction false} CategoryHitsIff(text: string, cats: seq<Category>, n: nat, h: Hit)
    requires n <= |cats|
    ensures h in CategoryHits(text, cats, n) <==> h.ci < n && Named(text, cats, h.ci, h.ii, h.value)
    decreases n
  {
    if n > 0 {
      CategoryHitsIff(text, cats, n - 1, h);
      ItemHitsIff(text, cats, n - 1, |cats[n - 1].items|, h);
    }
  }

  /**
   * The matcher's contract: a candidate is produced exactly for an item whose own name and
   * whose category's name both occur in the utterance, when the utterance holds a number,
   * and its value is that first number. In particular nothing in an unnamed category, and
   * nothing at all without a number, is ever a candidate.
   */
  lemma MatchesIff(text: string, cats: seq<Category>, h: Hit)
    ensures h in Matches(text, cats) <==> Named(text, cats, h.ci, h.ii, h.value)
  {
    CategoryHitsIff(text, cats, |cats|, h);
  }

  // ---------------------------------------------------------------- the staging list

  /** `findIndex` on the pair (categoryId, itemId); -1 when absent. */
  function FindIndex(s: seq<TrackingItem>, categoryId: string, itemId: string): (r: int)
    ensures -1 <= r < |s|
    ensures r == -1 ==> forall k :: 0 <= k < |s| ==> PairOf(s[k]) != (categoryId, itemId)
    ensures 0 <= r ==> PairOf(s[r]) == (categoryId, itemId)
    ensures 0 <= r ==> forall k :: 0 <= k < r ==> PairOf(s[k]) != (categoryId, itemId)
    decreases |s|
  {
    if s == [] then -1
    else if PairOf(s[0]) == (categoryId, itemId) then 0
    else
      var r := FindIndex(s[1..], categoryId, itemId);
      if r < 0 then -1 else r + 1
  }

  /** A repeat match overwrites the value of the staged entry; a new pair is appended. */
  function Upsert(s: seq<TrackingItem>, e: TrackingItem): seq<TrackingItem>
  {
    var i := FindIndex(s, e.categoryId, e.itemId);
    if i >= 0 then s[i := s[i].(value := e.value)] else s + [e]
  }

  lemma PairsMember(s: seq<TrackingItem>, p: (string, string))
    ensures p in Pairs(s) <==> exists k :: 0 <= k < |s| && PairOf(s[k]) == p
  {
    if p in Pairs(s) {
      var t :| t in s && PairOf(t) == p;
      var k :| 0 <= k < |s| && s[k] == t;
    }
  }

  /**
   * Upsert keeps the staging list free of duplicate pairs: an entry for the pair that is
   * already there keeps its index and takes the new value, every other entry is untouched,
   * and a new pair goes to the end.
   */
  lemma UpsertSpec(s: seq<TrackingItem>, e: TrackingItem)
    requires NoDup(s)
    ensures NoDup(Upsert(s, e))
    ensures Pairs(Upsert(s, e)) == Pairs(s) + {PairOf(e)}
    ensures PairOf(e) !in Pairs(s) ==> Upsert(s, e) == s + [e]
    ensures forall k :: 0 <= k < |s| && PairOf(s[k]) == PairOf(e) ==>
              && |Upsert(s, e)| == |s|
              && Upsert(s, e)[k] == s[k].(value := e.value)
              && forall j :: 0 <= j < |s| && j != k ==> Upsert(s, e)[j] == s[j]
  {
    var i := FindIndex(s, e.categoryId, e.itemId);
    var r := Upsert(s, e);
    PairsMember(s, PairOf(e));
    if i >= 0 {
      assert forall k :: 0 <= k < |r| ==> PairOf(r[k]) == PairOf(s[k]);
      forall p ensures p in Pairs(r) <==> p in Pairs(s) {
        PairsMember(r, p);
        PairsMember(s, p);
      }
    } else {
      forall p ensures p in Pairs(r) <==> p in Pairs(s) || p == PairOf(e) {
        PairsMember(r, p);
        PairsMember(s, p);
        assert r[|s|] == e;
      }
    }
  }

  /** Staging one pair twice leaves one entry, holding the later value, where the first put it. */
  lemma UpsertOverwrites(s: seq<TrackingItem>, e1: TrackingItem, e2: TrackingItem)
    requires PairOf(e1) == PairOf(e2)
    ensures Upsert(Upsert(s, e1), e2) == Upsert(s, e1.(value := e2.value))
  {
    var i := FindIndex(s, e1.categoryId, e1.itemId);
    var s1 := Upsert(s, e1);
    if i >= 0 {
      assert forall k :: 0 <= k < |s| ==> PairOf(s1[k]) == PairOf(s[k]);
      assert FindIndex(s1, e2.categoryId, e2.itemId) == i;
    } else {
      assert s1[|s|] == e1;
      assert forall k :: 0 <= k < |s| ==> s1[k] == s[k];
      assert FindIndex(s1, e2.categoryId, e2.itemId) == |s|;
    }
  }

  /** The entry a hit stages: no note, the matched value. */
  function Entry(cats: seq<Category>, h: Hit): TrackingItem
    requires h.ci < |cats| && h.ii < |cats[h.ci].items|
  {
    TrackingItem(cats[h.ci].id, cats[h.ci].items[h.ii].id, h.value, None)
  }

  ghost function HitPairs(cats: seq<Category>, hs: seq<Hit>): set<(string, string)>
    requires InRange(cats, hs)
  {
    set h | h in hs :: PairOf(Entry(cats, h))
  }

  /** The staging list after upserting the entries of the hits one after the other. */
  function StageAll(s: seq<TrackingItem>, cats: seq<Category>, hs: seq<Hit>): seq<TrackingItem>
    requires InRange(cats, hs)
    decreases |hs|
  {
    if hs == [] then s
    else Upsert(StageAll(s, cats, hs[..|hs| - 1]), Entry(cats, hs[|hs| - 1]))
  }

  /**
   * r is what staging entries for the pairs P, all valued v, made of the list s: r is free of
   * duplicates; its pairs are those of s and P; every entry of s keeps its index, pair and
   * note, and its value becomes v exactly when its pair is in P; and the entries past the
   * end of s are new pairs of P, valued v, without a note.
   */
  ghost predicate StagedFrom(s: seq<TrackingItem>, r: seq<TrackingItem>, P: set<(string, string)>, v: string)
  {
    && NoDup(r)
    && Pairs(r) == Pairs(s) + P
    && |r| >= |s|
    && (forall k :: 0 <= k < |s| ==>
          && PairOf(r[k]) == PairOf(s[k])
          && r[k].note == s[k].note
          && r[k].value == (if PairOf(s[k]) in P then v else s[k].value))
    && (forall k :: |s| <= k < |r| ==> PairOf(r[k]) in P && r[k].value == v && r[k].note == None)
  }

  /** One more upsert of an entry valued v extends what has been staged by its pair. */
  lemma UpsertStep(s: seq<TrackingItem>, r0: seq<TrackingItem>, P: set<(string, string)>, v: string, e: TrackingItem)
    requires StagedFrom(s, r0, P, v)
    requires e.value == v && e.note == None
    ensures StagedFrom(s, Upsert(r0, e), P + {PairOf(e)}, v)
  {
    UpsertSpec(r0, e);
    PairsMember(r0, PairOf(e));
    if PairOf(e) in Pairs(r0) {
      var i :| 0 <= i < |r0| && PairOf(r0[i]) == PairOf(e);
      UpsertStepExisting(s, r0, P, v, e, i);
    } else {
      UpsertStepNew(s, r0, P, v, e);
    }
  }

  lemma UpsertStepExisting(s: seq<TrackingItem>, r0: seq<TrackingItem>, P: set<(string, string)>, v: string,
                           e: TrackingItem, i: int)
    requires StagedFrom(s, r0, P, v)
    requires e.value == v && e.note == None
    requires 0 <= i < |r0| && PairOf(r0[i]) == PairOf(e)
    ensures StagedFrom(s, Upsert(r0, e), P + {PairOf(e)}, v)
  {
    UpsertSpec(r0, e);
    var r := Upsert(r0, e);
    var Q := P + {PairOf(e)};
    assert |r| == |r0| && r[i] == r0[i].(value := v);
    assert forall j :: 0 <= j < |r0| && j != i ==> r[j] == r0[j];
    assert Pairs(r) == Pairs(s) + Q;
    forall k | 0 <= k < |s|
      ensures PairOf(r[k]) == PairOf(s[k]) && r[k].note == s[k].note
      ensures r[k].value == (if PairOf(s[k]) in Q then v else s[k].value)
    {
      if k != i {
        assert r[k] == r0[k];
      }
    }
    forall k | |s| <= k < |r| ensures PairOf(r[k]) in Q && r[k].value == v && r[k].note == None {
      if k != i {
        assert r[k] == r0[k];
      }
    }
  }

  lemma UpsertStepNew(s: seq<TrackingItem>, r0: seq<TrackingItem>, P: set<(string, string)>, v: string,
                      e: TrackingItem)
    requires StagedFrom(s, r0, P, v)
    requires e.value == v && e.note == None
    requires PairOf(e) !in Pairs(r0)
    ensures StagedFrom(s, Upsert(r0, e), P + {PairOf(e)}, v)
  {
    UpsertSpec(r0, e);
    var r := Upsert(r0, e);
    var Q := P + {PairOf(e)};
    assert r == r0 + [e];
    forall k | 0 <= k < |s| ensures PairOf(s[k]) != PairOf(e) {
      assert r0[k] in r0;
    }
    forall k | 0 <= k < |s|
      ensures PairOf(r[k]) == PairOf(s[k]) && r[k].note == s[k].note
      ensures r[k].value == (if PairOf(s[k]) in Q then v else s[k].value)
    {
      assert r[k] == r0[k];
    }
    forall k | |s| <= k < |r| ensures PairOf(r[k]) in Q && r[k].value == v && r[k].note == None {
      if k < |r0| {
        assert r[k] == r0[k];
      }
    }
  }

  /** Staging a batch of hits that all carry the value v. */
  lemma {:induction false} StageAllSpec(s: seq<TrackingItem>, cats: seq<Category>, hs: seq<Hit>, v: string)
    requires NoDup(s) && InRange(cats, hs)
    requires forall h :: h in hs ==> h.value == v
    ensures StagedFrom(s, StageAll(s, cats, hs), HitPairs(cats, hs), v)
    decreases |hs|
  {
    if hs == [] {
      assert HitPairs(cats, hs) == {};
      assert Pairs(s) + {} == Pairs(s);
    } else {
      var front := hs[..|hs| - 1];
      var h := hs[|hs| - 1];
      assert forall x :: x in front ==> x in hs;
      StageAllSpec(s, cats, front, v);
      var e := Entry(cats, h);
      assert hs == front + [h];
      assert HitPairs(cats, hs) == HitPairs(cats, front) + {PairOf(e)};
      UpsertStep(s, StageAll(s, cats, front), HitPairs(cats, front), v, e);
    }
  }

  /**
   * One tracking turn on the staging list: it stays duplicate-free, and its pairs become the
   * old pairs plus exactly the (category, item) pairs the utterance names, every entry so
   * named taking the utterance's first number as its value.
   */
  lemma StagingTurn(s: seq<TrackingItem>, text: string, cats: seq<Category>)
    requires NoDup(s)
    ensures NoDup(StageAll(s, cats, Matches(text, cats)))
    ensures forall p :: p in Pairs(StageAll(s, cats, Matches(text, cats))) <==>
              p in Pairs(s) || exists ci, ii, v :: Named(text, cats, ci, ii, v) && p == (cats[ci].id, cats[ci].items[ii].id)
    ensures FirstNumber(text).None? ==> StageAll(s, cats, Matches(text, cats)) == s
  {
    var hs := Matches(text, cats);
    forall h | h in hs ensures Some(h.value) == FirstNumber(text) {
      MatchesIff(text, cats, h);
    }
    if FirstNumber(text).Some? {
      StageAllSpec(s, cats, hs, FirstNumber(text).value);
    } else {
      assert hs == [] by {
        if hs != [] {
          MatchesIff(text, cats, hs[0]);
        }
      }
    }
    forall p ensures p in HitPairs(cats, hs) <==>
                     exists ci, ii, v :: Named(text, cats, ci, ii, v) && p == (cats[ci].id, cats[ci].items[ii].id)
    {
      if p in HitPairs(cats, hs) {
        var h :| h in hs && p == PairOf(Entry(cats, h));
        MatchesIff(text, cats, h);
      }
      if ci, ii, v :| Named(text, cats, ci, ii, v) && p == (cats[ci].id, cats[ci].items[ii].id) {
        MatchesIff(text, cats, Hit(ci, ii, v));
        assert PairOf(Entry(cats, Hit(ci, ii, v))) == p;
      }
    }
  }

  /** `trackingItems.filter((_, i) => i !== index)`. */
  function RemoveAt<T>(s: seq<T>, index: int): seq<T>
    decreases |s|
  {
    if s == [] then []
    else (if index == 0 then [] else [s[0]]) + RemoveAt(s[1..], index - 1)
  }

  /**
   * Removing by index deletes exactly the entry at that index, keeping the others in order;
   * an index outside the list removes nothing.
   */
  lemma {:induction false} RemoveAtSplices<T>(s: seq<T>, index: int)
    ensures 0 <= index < |s| ==> RemoveAt(s, index) == s[..index] + s[index + 1..]
    ensures !(0 <= index < |s|) ==> RemoveAt(s, index) == s
    decreases |s|
  {
    if s != [] {
      RemoveAtSplices(s[1..], index - 1);
      if 0 < index < |s| {
        assert [s[0]] + (s[1..][..index - 1] + s[1..][index..]) == s[..index] + s[index + 1..];
      }
    }
  }

  /** Removal keeps the staging list free of duplicate pairs. */
  lemma RemoveAtKeepsNoDup(s: seq<TrackingItem>, index: int)
    requires NoDup(s)
    ensures NoDup(RemoveAt(s, index))
  {
    RemoveAtSplices(s, index);
    if 0 <= index < |s| {
      var r := RemoveAt(s, index);
      forall j, k | 0 <= j < k < |r| ensures PairOf(r[j]) != PairOf(r[k]) {
        var j' := if j < index then j else j + 1;
        var k' := if k < index then k else k + 1;
        assert r[j] == s[j'] && r[k] == s[k'];
      }
    }
  }

  // ---------------------------------------------------------------- replies

  const HelpReply: string :=
    "To track something, try saying something like 'Track 2000 calories in Nutrition' or 'Log 8000 steps in Fitness'. You can see all available categories and items in the Categories section."

  const FallbackReply: string :=
    "What would you like to track today? You can tell me something like 'Track 60kg weight in Fitness'."

  const ClosingQuestion: string := " Anything else you'd like to track?"

  /** `${item.unit ? ` ${item.unit}` : ''}`: an absent or empty unit adds nothing. */
  function UnitSuffix(unit: Option<string>): string
  {
    if unit.Some? && unit.value != "" then " " + unit.value else ""
  }

  function ClauseText(itemName: string, value: string, unit: Option<string>, categoryName: string): string
  {
    "I'll track " + itemName + " as " + value + UnitSuffix(unit) + " in " + categoryName + "."
  }

  function Clause(cats: seq<Category>, h: Hit): string
    requires h.ci < |cats| && h.ii < |cats[h.ci].items|
  {
    var item := cats[h.ci].items[h.ii];
    ClauseText(item.name, h.value, item.unit, cats[h.ci].name)
  }

  function Clauses(cats: seq<Category>, hs: seq<Hit>): seq<string>
    requires InRange(cats, hs)
  {
    seq(|hs|, k requires 0 <= k < |hs| => Clause(cats, hs[k]))
  }

  function CategoryNames(cats: seq<Category>): seq<string>
  {
    seq(|cats|, i requires 0 <= i < |cats| => cats[i].name)
  }

  function NoMatchReply(cats: seq<Category>): string
  {
    "I'm not sure what you want to track. You can track items from these categories: "
    + Join(CategoryNames(cats), ", ") + ". Can you be more specific?"
  }

  /** The reply to a tracking request with the given candidates. */
  function TrackReply(cats: seq<Category>, hs: seq<Hit>): string
    requires InRange(cats, hs)
  {
    if hs == [] then NoMatchReply(cats) else Join(Clauses(cats, hs), " ") + ClosingQuestion
  }

  /** The assistant's reply to a lower-cased utterance. */
  function Reply(text: string, cats: seq<Category>): string
  {
    match Classify(text)
    case Tracking => TrackReply(cats, Matches(text, cats))
    case Help => HelpReply
    case Fallback => FallbackReply
  }

  /** When nothing matches, the reply names every category of the catalog. */
  lemma NoMatchReplyListsCategories(cats: seq<Category>, i: int)
    requires 0 <= i < |cats|
    ensures Contains(NoMatchReply(cats), cats[i].name)
  {
    var names := CategoryNames(cats);
    JoinContainsEach(names, ", ", i);
    var head := "I'm not sure what you want to track. You can track items from these categories: ";
    var tail := ". Can you be more specific?";
    ContainsExtended(Join(names, ", "), tail, cats[i].name);
    ContainsExtended(Join(names, ", ") + tail, head, cats[i].name);
    assert NoMatchReply(cats) == head + (Join(names, ", ") + tail);
  }

  /**
   * When something matches, the reply carries one clause per candidate, each naming the
   * item, the value and the category, and ends with the closing question.
   */
  lemma TrackReplyHasEveryClause(cats: seq<Category>, hs: seq<Hit>, k: int)
    requires InRange(cats, hs) && 0 <= k < |hs|
    ensures Contains(TrackReply(cats, hs), Clause(cats, hs[k]))
    ensures ClosingQuestion <= TrackReply(cats, hs)[|TrackReply(cats, hs)| - |ClosingQuestion|..]
  {
    var parts := Clauses(cats, hs);
    JoinContainsEach(parts, " ", k);
    ContainsExtended(Join(parts, " "), ClosingQuestion, parts[k]);
    var r := TrackReply(cats, hs);
    assert r[|r| - |ClosingQuestion|..] == ClosingQuestion;
  }

  // ---------------------------------------------------------------- lookup

  /** `find(x => x.id === id)`, the id of an element being `idOf` of it. */
  function FindById<T>(s: seq<T>, idOf: T -> string, id: string): (r: Option<T>)
    ensures r.None? <==> forall i :: 0 <= i < |s| ==> idOf(s[i]) != id
    ensures r.Some? ==> exists i :: 0 <= i < |s| && s[i] == r.value && idOf(s[i]) == id
                                    && forall j :: 0 <= j < i ==> idOf(s[j]) != id
    decreases |s|
  {
    if s == [] then None
    else if idOf(s[0]) == id then Some(s[0])
    else
      var r := FindById(s[1..], idOf, id);
      if r.Some? then
        ghost var i :| 0 <= i < |s[1..]| && s[1..][i] == r.value && idOf(s[1..][i]) == id
                       && forall j :: 0 <= j < i ==> idOf(s[1..][j]) != id;
        assert s[i + 1] == r.value;
        r
      else r
  }

  /** `getCategoryAndItem`: the first category with the id, then the first item in it with the id. */
  function GetCategoryAndItem(cats: seq<Category>, categoryId: string, itemId: string): (Option<Category>, Option<TrackItem>)
  {
    var category := FindById(cats, (c: Category) => c.id, categoryId);
    (category, if category.Some? then FindById(category.value.items, (t: TrackItem) => t.id, itemId) else None)
  }

  ghost predicate DistinctCategoryIds(cats: seq<Category>)
  {
    forall i, j :: 0 <= i < j < |cats| ==> cats[i].id != cats[j].id
  }

  /** The seeded catalog has distinct category ids, so `HitsResolve` applies from start-up. */
  lemma InitialCategoriesDistinct(now: string)
    ensures DistinctCategoryIds(InitialCategories(now))
  {
  }

  /**
   * With distinct category ids, every candidate of a turn resolves for display: the lookup
   * finds its category and an item with its id, named in the utterance's own terms.
   */
  lemma HitsResolve(text: string, cats: seq<Category>, h: Hit)
    requires DistinctCategoryIds(cats) && h in Matches(text, cats)
    ensures GetCategoryAndItem(cats, Entry(cats, h).categoryId, Entry(cats, h).itemId).0 == Some(cats[h.ci])
    ensures GetCategoryAndItem(cats, Entry(cats, h).categoryId, Entry(cats, h).itemId).1.Some?
    ensures GetCategoryAndItem(cats, Entry(cats, h).categoryId, Entry(cats, h).itemId).1.value.id
         == cats[h.ci].items[h.ii].id
  {
    MatchesIff(text, cats, h);
    var idOf := (c: Category) => c.id;
    var c := FindById(cats, idOf, cats[h.ci].id);
    var i :| 0 <= i < |cats| && cats[i] == c.value && idOf(cats[i]) == cats[h.ci].id
             && forall j :: 0 <= j < i ==> idOf(cats[j]) != cats[h.ci].id;
    assert i == h.ci;
  }
}
