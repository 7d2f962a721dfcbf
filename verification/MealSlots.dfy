/**
 From requested words to meal pools: words for one kind of food share a slot, the first word keeps it, and
 every slot either brings a pool or is reported missing.
 */
module MealSlots {
  import opened Wrappers
  import opened Itinerary
  import opened ItineraryRules

  /** Food, cafe and so on. */
  type Action = string

  datatype Key = Key(action: Action, dish: string)

  datatype Slot = Slot(word: string, action: Action, dishes: seq<string>)

  /** The vocabulary: which words name food, and the dishes a food word stands for. */
  datatype Menu = Menu(action: string -> Option<Action>, dishes: string -> seq<string>)

  function Dishes(menu: Menu, word: string, action: Action): seq<string> {
    if action == "food" then menu.dishes(word) else []
  }

  function KeyOf(menu: Menu, word: string): Option<Key> {
    match menu.action(word)
    case None => None
    case Some(action) =>
      var dishes := Dishes(menu, word, action);
      Some(Key(action, if dishes != [] then dishes[0] else ""))
  }

  /** Two food words are of one kind when their action is the same and, for dishes, the first dish they stand for. */
  lemma KindsAreExact(menu: Menu, a: string, b: string)
    requires menu.action(a).Some? && menu.action(b).Some?
    ensures var x, y := menu.dishes(a), menu.dishes(b);
            KeyOf(menu, a) == KeyOf(menu, b)
            <==> menu.action(a) == menu.action(b)
                 && (menu.action(a) == Some("food") ==>
                       (if x == [] then "" else x[0]) == if y == [] then "" else y[0])
  {
  }

  /** Word `p` of the request is the first with its key. */
  ghost predicate FirstOfItsKind(menu: Menu, eating: seq<string>, p: nat)
    requires p < |eating|
  {
    KeyOf(menu, eating[p]).Some? && forall q | 0 <= q < p :: KeyOf(menu, eating[q]) != KeyOf(menu, eating[p])
  }

  /** A slot belongs to the first requested word of its kind. */
  ghost predicate Earned(menu: Menu, eating: seq<string>, slot: Slot) {
    exists p | 0 <= p < |eating| ::
      FirstOfItsKind(menu, eating, p) && eating[p] == slot.word
      && menu.action(slot.word) == Some(slot.action) && slot.dishes == Dishes(menu, slot.word, slot.action)
  }

  ghost predicate Covered(menu: Menu, slots: seq<Slot>, word: string) {
    exists i | 0 <= i < |slots| :: KeyOf(menu, slots[i].word) == KeyOf(menu, word)
  }

  /** One slot for each kind of food named, held by its first word. */
  ghost predicate OnePerKind(menu: Menu, eating: seq<string>, slots: seq<Slot>) {
    && (forall i, j | 0 <= i < j < |slots| :: KeyOf(menu, slots[i].word) != KeyOf(menu, slots[j].word))
    && (forall i | 0 <= i < |slots| :: Earned(menu, eating, slots[i]))
    && (forall p | 0 <= p < |eating| && KeyOf(menu, eating[p]).Some? :: Covered(menu, slots, eating[p]))
  }

  lemma AnotherWord(menu: Menu, eating: seq<string>, slots: seq<Slot>, word: string)
    requires OnePerKind(menu, eating, slots)
    requires KeyOf(menu, word).None? || Covered(menu, slots, word)
    ensures OnePerKind(menu, eating + [word], slots)
  {
    EarnedStays(menu, eating, word);
  }

  lemma EarnedStays(menu: Menu, eating: seq<string>, word: string)
    ensures forall slot | Earned(menu, eating, slot) :: Earned(menu, eating + [word], slot)
  {
    forall slot | Earned(menu, eating, slot)
      ensures Earned(menu, eating + [word], slot)
    {
      var p :| 0 <= p < |eating| && FirstOfItsKind(menu, eating, p) && eating[p] == slot.word;
      assert FirstOfItsKind(menu, eating + [word], p);
    }
  }

  lemma AnotherSlot(menu: Menu, eating: seq<string>, slots: seq<Slot>, word: string, action: Action)
    requires OnePerKind(menu, eating, slots) && menu.action(word) == Some(action)
    requires !Covered(menu, slots, word)
    ensures OnePerKind(menu, eating + [word], slots + [Slot(word, action, Dishes(menu, word, action))])
  {
    var all, more := eating + [word], slots + [Slot(word, action, Dishes(menu, word, action))];
    EarnedStays(menu, eating, word);
    assert more[|slots|].word == word && all[|eating|] == word;
    assert FirstOfItsKind(menu, all, |eating|);
    forall p | 0 <= p < |all| && KeyOf(menu, all[p]).Some?
      ensures Covered(menu, more, all[p])
    {
      if p < |eating| {
        var i :| 0 <= i < |slots| && KeyOf(menu, slots[i].word) == KeyOf(menu, eating[p]);
        assert more[i] == slots[i];
      }
    }
  }

  predicate SeenBefore(menu: Menu, eating: seq<string>, word: string) {
    exists q | 0 <= q < |eating| :: KeyOf(menu, eating[q]) == KeyOf(menu, word)
  }

  /** The slot a further word adds, if it is the first of its kind. */
  function NewSlot(menu: Menu, eating: seq<string>, word: string): seq<Slot> {
    match menu.action(word)
    case None => []
    case Some(action) => if SeenBefore(menu, eating, word) then [] else [Slot(word, action, Dishes(menu, word, action))]
  }

  /** The slots in the order of the words that hold them, each kind's first word holding its slot. */
  function SlotsOf(menu: Menu, eating: seq<string>): seq<Slot> {
    if eating == [] then []
    else
      var front, word := eating[..|eating| - 1], eating[|eating| - 1];
      SlotsOf(menu, front) + NewSlot(menu, front, word)
  }

  predicate KeysAre(menu: Menu, eating: seq<string>, keys: set<Key>) {
    forall p | 0 <= p < |eating| && KeyOf(menu, eating[p]).Some? :: KeyOf(menu, eating[p]).value in keys
  }

  ghost predicate KeysAreSeen(menu: Menu, eating: seq<string>, keys: set<Key>) {
    KeysAre(menu, eating, keys) && forall key | key in keys :: KeyIsSeen(menu, eating, key)
  }

  ghost predicate KeyIsSeen(menu: Menu, eating: seq<string>, key: Key) {
    exists q | 0 <= q < |eating| :: KeyOf(menu, eating[q]) == Some(key)
  }

  lemma KeysTell(menu: Menu, eating: seq<string>, keys: set<Key>, word: string)
    requires KeysAreSeen(menu, eating, keys) && KeyOf(menu, word).Some?
    ensures SeenBefore(menu, eating, word) <==> KeyOf(menu, word).value in keys
  {
    hide KeyOf;
    if KeyOf(menu, word).value in keys { assert KeyIsSeen(menu, eating, KeyOf(menu, word).value); }
  }

  lemma KeysOneMore(menu: Menu, eating: seq<string>, keys: set<Key>, word: string)
    requires KeysAreSeen(menu, eating, keys)
    ensures KeysAreSeen(menu, eating + [word], if KeyOf(menu, word).Some? then keys + {KeyOf(menu, word).value} else keys)
  {
    hide KeyOf;
    var all := eating + [word];
    assert all[|eating|] == word;
    forall key | KeyIsSeen(menu, eating, key)
      ensures KeyIsSeen(menu, all, key)
    {
      var q :| 0 <= q < |eating| && KeyOf(menu, eating[q]) == Some(key);
      assert all[q] == eating[q];
    }
  }

  lemma NextWord(menu: Menu, eating: seq<string>, p: nat)
    requires p < |eating|
    ensures eating[..p + 1] == eating[..p] + [eating[p]]
    ensures SlotsOf(menu, eating[..p + 1]) == SlotsOf(menu, eating[..p]) + NewSlot(menu, eating[..p], eating[p])
  {
    assert eating[..p + 1][..p] == eating[..p];
    hide NewSlot;
  }

  /** The slots, an insertion-ordered dictionary in the code: `setdefault` keeps the first word of a key. */
  method Slots(menu: Menu, eating: seq<string>) returns (slots: seq<Slot>)
    ensures slots == SlotsOf(menu, eating)
  {
    slots := [];
    var keys: set<Key> := {};
    for p := 0 to |eating|
      invariant slots == SlotsOf(menu, eating[..p]) && KeysAreSeen(menu, eating[..p], keys)
    {
      hide Dishes, KeysAreSeen, SeenBefore, SlotsOf;
      var word := eating[p];
      NextWord(menu, eating, p);
      KeysOneMore(menu, eating[..p], keys, word);
      var action := menu.action(word);
      if action.None? {
        continue;
      }
      KeysTell(menu, eating[..p], keys, word);
      var dishes := Dishes(menu, word, action.value);
      var key := Key(action.value, if dishes != [] then dishes[0] else "");
      if key !in keys {
        slots := slots + [Slot(word, action.value, dishes)];
      }
      keys := keys + {key};
    }
    assert eating[..|eating|] == eating;
  }

  lemma OneMoreWord(menu: Menu, eating: seq<string>, slots: seq<Slot>, word: string)
    requires OnePerKind(menu, eating, slots)
    ensures OnePerKind(menu, eating + [word], slots + NewSlot(menu, eating, word))
  {
    SeenIsCovered(menu, eating, slots, word);
    hide OnePerKind, Dishes, SeenBefore, Covered;
    if NewSlot(menu, eating, word) == [] {
      assert slots + [] == slots;
      AnotherWord(menu, eating, slots, word);
    } else {
      AnotherSlot(menu, eating, slots, word, menu.action(word).value);
    }
  }

  /** The slots are one per kind of food named. */
  lemma {:induction false} SlotsAreOnePerKind(menu: Menu, eating: seq<string>)
    ensures OnePerKind(menu, eating, SlotsOf(menu, eating))
  {
    if eating == [] {
      assert SlotsOf(menu, eating) == [];
    } else {
      var front, word := eating[..|eating| - 1], eating[|eating| - 1];
      assert eating == front + [word];
      SlotsAreOnePerKind(menu, front);
      hide OnePerKind, NewSlot;
      OneMoreWord(menu, front, SlotsOf(menu, front), word);
    }
  }

  lemma SeenIsCovered(menu: Menu, eating: seq<string>, slots: seq<Slot>, word: string)
    requires OnePerKind(menu, eating, slots)
    ensures KeyOf(menu, word).Some? ==> (SeenBefore(menu, eating, word) <==> Covered(menu, slots, word))
  {
    hide KeyOf;
  }

  /** The positions of the request that hold the slots, one by one and increasing. */
  lemma {:induction false} SlotsKeepTheOrder(menu: Menu, eating: seq<string>) returns (at: seq<nat>)
    ensures var slots := SlotsOf(menu, eating);
            && |at| == |slots|
            && (forall i, j | 0 <= i < j < |at| :: at[i] < at[j])
            && (forall i | 0 <= i < |at| :: at[i] < |eating| && eating[at[i]] == slots[i].word && FirstOfItsKind(menu, eating, at[i]))
  {
    at := [];
    if eating != [] {
      var front, word := eating[..|eating| - 1], eating[|eating| - 1];
      at := SlotsKeepTheOrder(menu, front);
      hide Dishes;
      forall i | 0 <= i < |at|
        ensures FirstOfItsKind(menu, eating, at[i])
      {
        assert FirstOfItsKind(menu, front, at[i]);
      }
      if SlotsOf(menu, eating) != SlotsOf(menu, front) {
        assert FirstOfItsKind(menu, eating, |front|);
        at := at + [|front|];
      }
    }
  }

  // ----- from slots to pools -----

  function PoolsOf(slots: seq<Slot>, find: Slot -> seq<Row>): seq<Kind> {
    if slots == [] then []
    else
      var last := slots[|slots| - 1];
      PoolsOf(slots[..|slots| - 1], find) + if find(last) != [] then [Kind(last.word, find(last))] else []
  }

  function MissingOf(slots: seq<Slot>, find: Slot -> seq<Row>): seq<string> {
    if slots == [] then []
    else
      var last := slots[|slots| - 1];
      MissingOf(slots[..|slots| - 1], find) + if find(last) == [] then [last.word] else []
  }

  method Meals(menu: Menu, find: Slot -> seq<Row>, eating: seq<string>) returns (pools: seq<Kind>, missing: seq<string>)
    ensures pools == PoolsOf(SlotsOf(menu, eating), find) && missing == MissingOf(SlotsOf(menu, eating), find)
  {
    var slots := Slots(menu, eating);
    pools, missing := [], [];
    for i := 0 to |slots|
      invariant pools == PoolsOf(slots[..i], find) && missing == MissingOf(slots[..i], find)
    {
      assert slots[..i + 1][..i] == slots[..i];
      var pool := find(slots[i]);
      if pool != [] {
        pools := pools + [Kind(slots[i].word, pool)];
      } else {
        missing := missing + [slots[i].word];
      }
    }
    assert slots[..|slots|] == slots;
  }

  function Words(slots: seq<Slot>): set<string> {
    set slot | slot in slots :: slot.word
  }

  lemma {:induction false} PoolsComeFromSlots(slots: seq<Slot>, find: Slot -> seq<Row>)
    requires forall i, j | 0 <= i < j < |slots| :: slots[i].word != slots[j].word
    ensures var pools, missing := PoolsOf(slots, find), MissingOf(slots, find);
            && DistinctWords(pools) && |pools| + |missing| == |slots|
            && (forall k | 0 <= k < |pools| :: pools[k].rows != [] && pools[k].word in Words(slots))
            && (forall m | 0 <= m < |missing| :: missing[m] in Words(slots))
            && (forall k, m | 0 <= k < |pools| && 0 <= m < |missing| :: pools[k].word != missing[m])
  {
    if slots != [] {
      var n := |slots| - 1;
      PoolsComeFromSlots(slots[..n], find);
      LastWordIsNew(slots);
      hide Words;
    }
  }

  lemma LastWordIsNew(slots: seq<Slot>)
    requires slots != [] && forall i, j | 0 <= i < j < |slots| :: slots[i].word != slots[j].word
    ensures var n := |slots| - 1;
            slots[n].word !in Words(slots[..n]) && Words(slots) == Words(slots[..n]) + {slots[n].word}
  {
    var n := |slots| - 1;
    assert slots == slots[..n] + [slots[n]];
  }

  /**
   The pools an itinerary is assembled from carry distinct words, none of them empty or also reported
   missing, and together with the missing words they account for every kind of food asked for.
   */
  lemma PoolWordsAreDistinct(menu: Menu, find: Slot -> seq<Row>, eating: seq<string>)
    ensures var slots := SlotsOf(menu, eating);
            var pools, missing := PoolsOf(slots, find), MissingOf(slots, find);
            && DistinctWords(pools) && |pools| + |missing| == |slots|
            && (forall k | 0 <= k < |pools| :: pools[k].rows != [])
            && (forall k, m | 0 <= k < |pools| && 0 <= m < |missing| :: pools[k].word != missing[m])
  {
    SlotsAreOnePerKind(menu, eating);
    var slots := SlotsOf(menu, eating);
    assert forall i, j | 0 <= i < j < |slots| :: KeyOf(menu, slots[i].word) != KeyOf(menu, slots[j].word);
    PoolsComeFromSlots(slots, find);
  }

  /** `at` are the slots something was found for, in order, and the pools are what was found; the others are missing. */
  ghost predicate FoundAt(slots: seq<Slot>, find: Slot -> seq<Row>, pools: seq<Kind>, missing: seq<string>, at: seq<nat>) {
    && |at| == |pools|
    && (forall i, j | 0 <= i < j < |at| :: at[i] < at[j])
    && (forall k | 0 <= k < |at| :: at[k] < |slots| && IsPoolOf(slots[at[k]], find, pools[k]))
    && (forall i: nat | i < |slots| && i !in at :: find(slots[i]) == [] && slots[i].word in missing)
  }

  predicate IsPoolOf(slot: Slot, find: Slot -> seq<Row>, pool: Kind) {
    pool.word == slot.word && pool.rows == find(slot) != []
  }

  lemma OneMoreFound(slots: seq<Slot>, find: Slot -> seq<Row>, pools: seq<Kind>, missing: seq<string>, at: seq<nat>, slot: Slot)
    requires FoundAt(slots, find, pools, missing, at)
    ensures if find(slot) != [] then
              FoundAt(slots + [slot], find, pools + [Kind(slot.word, find(slot))], missing, at + [|slots|])
            else FoundAt(slots + [slot], find, pools, missing + [slot.word], at)
  {
    hide IsPoolOf;
    var all := slots + [slot];
    assert forall i: nat | i < |slots| :: all[i] == slots[i];
    if find(slot) != [] {
      assert IsPoolOf(slot, find, Kind(slot.word, find(slot))) by { PoolOfSlot(slot, find); }
      var more := at + [|slots|];
      forall i: nat | i < |all| && i !in more
        ensures find(all[i]) == [] && all[i].word in missing
      {
        assert more[|at|] == |slots|;
        assert i < |slots| && i !in at;
      }
    }
  }

  lemma PoolOfSlot(slot: Slot, find: Slot -> seq<Row>)
    requires find(slot) != []
    ensures IsPoolOf(slot, find, Kind(slot.word, find(slot)))
  {
  }

  /** The pools are what was found for the slots, in the order of the slots; the other slots' words are missing. */
  lemma {:induction false} PoolsAreWhatWasFound(slots: seq<Slot>, find: Slot -> seq<Row>) returns (at: seq<nat>)
    ensures FoundAt(slots, find, PoolsOf(slots, find), MissingOf(slots, find), at)
  {
    at := [];
    if slots != [] {
      var front, last := slots[..|slots| - 1], slots[|slots| - 1];
      at := PoolsAreWhatWasFound(front, find);
      hide FoundAt;
      OneMoreFound(front, find, PoolsOf(front, find), MissingOf(front, find), at, last);
      assert slots == front + [last];
      if find(last) != [] {
        assert MissingOf(slots, find) == MissingOf(front, find);
        at := at + [|front|];
      } else {
        assert PoolsOf(slots, find) == PoolsOf(front, find);
      }
    }
  }
}
