/** The flat index and the fan-out query over the shards' indexes. */
module Query {
  import opened Wrappers
  import opened Records
  import opened TopK

  type Vector = seq<real>

  datatype Row = Row(id: string, vector: Vector, metadata: Json)

  datatype Hit = Hit(id: string, score: real, vector: Vector, metadata: Json)

  function ScoreOf(h: Hit): real {
    h.score
  }

  type Scorer = (Vector, Vector) -> real

  type Filter = Option<Json -> bool>

  predicate Passes(filter: Filter, metadata: Json) {
    filter.None? || filter.value(metadata)
  }

  /** The score a filtered-out row is given, and the one at which a row is not returned. */
  const SUNK := -1000000000.0

  const FLOOR := -100000000.0

  /** The best `k` of these hits, or all of them if they are fewer, in descending order of their scores. */
  ghost predicate Best(hits: seq<Hit>, rows: multiset<Hit>, k: nat) {
    && |hits| == (if |rows| < k then |rows| else k) && multiset(hits) <= rows
    && (forall i, j :: 0 <= i < j < |hits| ==> hits[i].score >= hits[j].score)
    && (forall x, y :: x in hits && y in rows - multiset(hits) ==> x.score >= y.score)
  }

  lemma TopKIsBest(hits: seq<Hit>, rows: multiset<Hit>, k: nat)
    requires IsTopK(ScoreOf, hits, rows, k)
    ensures Best(hits, rows, k)
  {
    forall i, j | 0 <= i < j < |hits| ensures hits[i].score >= hits[j].score {
      assert ScoreOf(hits[i]) >= ScoreOf(hits[j]);
    }
    forall x, y | x in hits && y in rows - multiset(hits) ensures x.score >= y.score {
      assert ScoreOf(y) <= ScoreOf(x);
    }
  }

  // ----- what a search is over -----

  function Scored(scorer: Scorer, query: Vector, r: Row): Hit {
    Hit(r.id, scorer(query, r.vector), r.vector, r.metadata)
  }

  /** The hits of the rows that pass the filter. */
  ghost function Matching(scorer: Scorer, query: Vector, filter: Filter, rows: seq<Row>): seq<Hit> {
    if rows == [] then []
    else
      var r := rows[|rows| - 1];
      Matching(scorer, query, filter, rows[..|rows| - 1])
      + (if filter.None? || filter.value(r.metadata) then [Hit(r.id, scorer(query, r.vector), r.vector, r.metadata)] else [])
  }

  /** Every row that passes the filter scores above -1e8, as every similarity does that is computed from vectors of
      moderate size. */
  ghost predicate Moderate(scorer: Scorer, query: Vector, filter: Filter, rows: seq<Row>) {
    forall r :: r in rows && (filter.None? || filter.value(r.metadata)) ==> scorer(query, r.vector) > -100000000.0
  }

  lemma {:induction false} ModerateLosesNothing(scorer: Scorer, query: Vector, filter: Filter, rows: seq<Row>)
    requires Moderate(scorer, query, filter, rows)
    ensures Eligible(scorer, query, filter, rows) == Matching(scorer, query, filter, rows)
  {
    if rows != [] {
      var n := |rows| - 1;
      assert rows[n] in rows;
      ModerateLosesNothing(scorer, query, filter, rows[..n]);
    }
  }

  lemma {:induction false} EveryMatchIsAHit(scorer: Scorer, query: Vector, filter: Filter, rows: seq<Row>, r: Row)
    requires r in rows && (filter.None? || filter.value(r.metadata))
    ensures Hit(r.id, scorer(query, r.vector), r.vector, r.metadata) in Matching(scorer, query, filter, rows)
  {
    var n := |rows| - 1;
    if r != rows[n] {
      EveryMatchIsAHit(scorer, query, filter, rows[..n], r);
    }
  }

  /** A search is over every row that passes its filter exactly when all those rows score above -1e8. */
  lemma LosesNothingIff(scorer: Scorer, query: Vector, filter: Filter, rows: seq<Row>)
    ensures Eligible(scorer, query, filter, rows) == Matching(scorer, query, filter, rows) <==> Moderate(scorer, query, filter, rows)
  {
    if Moderate(scorer, query, filter, rows) {
      ModerateLosesNothing(scorer, query, filter, rows);
    }
    hide Eligible, Matching;
    if Eligible(scorer, query, filter, rows) == Matching(scorer, query, filter, rows) {
      forall r | r in rows && (filter.None? || filter.value(r.metadata)) ensures scorer(query, r.vector) > -100000000.0 {
        EveryMatchIsAHit(scorer, query, filter, rows, r);
        EligibleFrom(scorer, query, filter, rows, Hit(r.id, scorer(query, r.vector), r.vector, r.metadata));
      }
    }
  }

  /** The rows a search may return: those that pass the filter and score above the floor. */
  ghost function Eligible(scorer: Scorer, query: Vector, filter: Filter, rows: seq<Row>): seq<Hit> {
    if rows == [] then []
    else
      var r := rows[|rows| - 1];
      Eligible(scorer, query, filter, rows[..|rows| - 1])
      + (if (filter.None? || filter.value(r.metadata)) && scorer(query, r.vector) > -100000000.0
         then [Hit(r.id, scorer(query, r.vector), r.vector, r.metadata)] else [])
  }

  /** Nothing is returned that no row accounts for. */
  lemma {:induction false} EligibleFrom(scorer: Scorer, query: Vector, filter: Filter, rows: seq<Row>, h: Hit)
    requires h in Eligible(scorer, query, filter, rows)
    ensures (filter.None? || filter.value(h.metadata)) && h.score == scorer(query, h.vector) && h.score > -100000000.0
    ensures Row(h.id, h.vector, h.metadata) in rows
  {
    var n := |rows| - 1;
    if h in Eligible(scorer, query, filter, rows[..n]) {
      EligibleFrom(scorer, query, filter, rows[..n], h);
    } else {
      assert rows[n] in rows;
    }
  }

  function Masked(scorer: Scorer, query: Vector, filter: Filter, r: Row): Hit {
    var h := Scored(scorer, query, r);
    if Passes(filter, r.metadata) then h else h.(score := SUNK)
  }

  // ----- dropping what sank -----

  function Afloat(hits: seq<Hit>): seq<Hit> {
    if hits == [] then []
    else Afloat(hits[..|hits| - 1]) + (if hits[|hits| - 1].score > FLOOR then [hits[|hits| - 1]] else [])
  }

  lemma AfloatAppend(hits: seq<Hit>, h: Hit)
    ensures Afloat(hits + [h]) == Afloat(hits) + (if h.score > FLOOR then [h] else [])
  {
    assert (hits + [h])[..|hits|] == hits;
  }

  lemma {:induction false} AfloatCount(hits: seq<Hit>, h: Hit)
    ensures multiset(Afloat(hits))[h] == if h.score > FLOOR then multiset(hits)[h] else 0
  {
    if hits != [] {
      var n := |hits| - 1;
      AfloatCount(hits[..n], h);
      assert hits == hits[..n] + [hits[n]];
      AfloatAppend(hits[..n], hits[n]);
      hide Afloat;
      assert multiset(hits)[h] == multiset(hits[..n])[h] + (if hits[n] == h then 1 else 0);
    }
  }

  lemma AfloatBag(a: seq<Hit>, b: seq<Hit>)
    requires multiset(a) == multiset(b)
    ensures multiset(Afloat(a)) == multiset(Afloat(b))
  {
    forall h ensures multiset(Afloat(a))[h] == multiset(Afloat(b))[h] {
      AfloatCount(a, h);
      AfloatCount(b, h);
    }
  }

  lemma LastIsLeast(hits: seq<Hit>)
    requires Descending(ScoreOf, hits) && hits != []
    ensures forall i :: 0 <= i < |hits| - 1 ==> hits[i].score >= hits[|hits| - 1].score
    ensures Descending(ScoreOf, hits[..|hits| - 1])
  {
    forall i | 0 <= i < |hits| - 1 ensures hits[i].score >= hits[|hits| - 1].score {
      assert ScoreOf(hits[i]) >= ScoreOf(hits[|hits| - 1]);
    }
  }

  lemma OneMoreAfloat(init: seq<Hit>, last: Hit, m: nat)
    requires m <= |init| && forall i :: 0 <= i < |init| ==> (init[i].score > FLOOR <==> i < m)
    requires forall i :: 0 <= i < |init| ==> init[i].score >= last.score
    ensures var hits, afloat := init + [last], init[..m] + (if last.score > FLOOR then [last] else []);
      && |afloat| <= |hits| && afloat == hits[..|afloat|]
      && forall i :: 0 <= i < |hits| ==> (hits[i].score > FLOOR <==> i < |afloat|)
  {
    assert m < |init| ==> init[m].score <= FLOOR;
  }

  /** Of a sorted list, what stays afloat is a prefix. */
  lemma {:induction false} AfloatIsPrefix(hits: seq<Hit>)
    requires Descending(ScoreOf, hits)
    ensures |Afloat(hits)| <= |hits| && Afloat(hits) == hits[..|Afloat(hits)|]
    ensures forall i :: 0 <= i < |hits| ==> (hits[i].score > FLOOR <==> i < |Afloat(hits)|)
  {
    if hits != [] {
      hide Descending;
      LastIsLeast(hits);
      var n := |hits| - 1;
      var init := hits[..n];
      AfloatIsPrefix(init);
      assert hits == init + [hits[n]];
      AfloatAppend(init, hits[n]);
      hide Afloat;
      OneMoreAfloat(init, hits[n], |Afloat(init)|);
    }
  }

  /** How far the prefix of a cut list stays afloat. */
  lemma AfloatOfCut(hits: seq<Hit>, k: nat)
    requires Descending(ScoreOf, hits) && k <= |hits|
    ensures |Afloat(hits[..k])| == if |Afloat(hits)| < k then |Afloat(hits)| else k
  {
    hide Afloat;
    AfloatIsPrefix(hits);
    var cut := hits[..k];
    AfloatIsPrefix(cut);
    hide Descending;
    var m, m' := |Afloat(hits)|, |Afloat(cut)|;
    if m' < k {
      assert cut[m'] == hits[m'];
    }
    if m < k {
      assert cut[m] == hits[m];
    }
  }

  /** Truncating and then dropping what sank is dropping and then truncating. */
  lemma TruncateAfloat(hits: seq<Hit>, k: nat)
    requires Descending(ScoreOf, hits)
    ensures Afloat(if |hits| < k then hits else hits[..k])
         == (if |Afloat(hits)| < k then Afloat(hits) else Afloat(hits)[..k])
  {
    hide Afloat;
    AfloatIsPrefix(hits);
    if |hits| >= k {
      AfloatOfCut(hits, k);
      AfloatIsPrefix(hits[..k]);
      hide Descending;
      assert hits[..k][..|Afloat(hits[..k])|] == hits[..|Afloat(hits[..k])|];
    }
  }

  lemma AfloatDescends(hits: seq<Hit>)
    requires Descending(ScoreOf, hits)
    ensures Descending(ScoreOf, Afloat(hits))
  {
    AfloatIsPrefix(hits);
  }

  // ----- parallel lists read as rows -----

  ghost function Rowed(ids: seq<string>, vectors: seq<Vector>, metadatas: seq<Json>): (rows: seq<Row>)
    requires |ids| == |vectors| == |metadatas|
    ensures |rows| == |ids|
    ensures forall i :: 0 <= i < |ids| ==> rows[i] == Row(ids[i], vectors[i], metadatas[i])
  {
    seq(|ids|, i requires 0 <= i < |ids| => Row(ids[i], vectors[i], metadatas[i]))
  }

  lemma RowedConcat(a: seq<string>, va: seq<Vector>, ma: seq<Json>, b: seq<string>, vb: seq<Vector>, mb: seq<Json>)
    requires |a| == |va| == |ma| && |b| == |vb| == |mb|
    ensures Rowed(a + b, va + vb, ma + mb) == Rowed(a, va, ma) + Rowed(b, vb, mb)
  {
  }

  /** The metadata of the first `n` added rows: as given, or empty if none was. */
  function MetadatasOr(given: seq<Json>, n: nat): (ms: seq<Json>)
    requires given == [] || n <= |given|
    ensures |ms| == n
  {
    if given == [] then seq(n, _ => Obj(map[])) else given[..n]
  }

  lemma MetadatasNext(given: seq<Json>, n: nat)
    requires given == [] || n < |given|
    ensures MetadatasOr(given, n + 1) == MetadatasOr(given, n) + [if given == [] then Obj(map[]) else given[n]]
  {
  }

  /** For how many of the ids there is metadata. */
  function Covered(given: seq<Json>, ids: nat): (n: nat)
    ensures n <= ids && (given == [] || n <= |given|)
    ensures n < ids ==> given != [] && n == |given|
  {
    if given == [] || |given| >= ids then ids else |given|
  }

  // ----- what a deletion keeps -----

  /** The positions whose id stays. */
  function Staying(ids: seq<string>, gone: set<string>): (keep: seq<nat>)
    ensures Within(keep, |ids|)
  {
    if ids == [] then []
    else
      var n := |ids| - 1;
      Staying(ids[..n], gone) + if ids[n] in gone then [] else [n]
  }

  /** Every position is one of a list of this length. */
  predicate Within(keep: seq<nat>, n: nat) {
    forall k :: 0 <= k < |keep| ==> keep[k] < n
  }

  /** Advanced indexing, in the order of the positions. */
  function Pick<T>(xs: seq<T>, keep: seq<nat>): (r: seq<T>)
    requires Within(keep, |xs|)
    ensures |r| == |keep| && forall k :: 0 <= k < |keep| ==> r[k] == xs[keep[k]]
  {
    seq(|keep|, k requires 0 <= k < |keep| => xs[keep[k]])
  }

  lemma {:induction false} StayingIsKept(ids: seq<string>, vectors: seq<Vector>, metadatas: seq<Json>, gone: set<string>)
    requires |ids| == |vectors| == |metadatas|
    ensures var keep := Staying(ids, gone);
      Rowed(Pick(ids, keep), Pick(vectors, keep), Pick(metadatas, keep)) == Kept(Rowed(ids, vectors, metadatas), gone)
  {
    if ids != [] {
      var n := |ids| - 1;
      StayingIsKept(ids[..n], vectors[..n], metadatas[..n], gone);
      var init := Staying(ids[..n], gone);
      assert Rowed(ids, vectors, metadatas)[..n] == Rowed(ids[..n], vectors[..n], metadatas[..n]);
      assert Pick(ids, init) == Pick(ids[..n], init) && Pick(vectors, init) == Pick(vectors[..n], init);
      assert Pick(metadatas, init) == Pick(metadatas[..n], init);
    }
  }

  // ----- the scores of a search -----

  /** What a search ranks at a position, and the row it finds there if all three lists reach so far. */
  datatype Slot = Slot(score: real, hit: Option<Hit>)

  function SlotScore(s: Slot): real {
    s.score
  }

  /** How many scores there are. A filter raises if there is less metadata than ids; its mask and the scores are
      as many, or one of them stands for all. */
  function Width(filter: Filter, ids: nat, vectors: nat, metadatas: nat): Option<nat> {
    if filter.None? then Some(vectors)
    else if metadatas < ids then None
    else if ids == vectors || ids == 1 then Some(vectors)
    else if vectors == 1 then Some(ids) else None
  }

  function SlotAt(scorer: Scorer, query: Vector, filter: Filter, ids: seq<string>, vectors: seq<Vector>, metadatas: seq<Json>, j: nat): Slot
    requires ids != [] && vectors != [] && Width(filter, |ids|, |vectors|, |metadatas|).Some?
    requires j < Width(filter, |ids|, |vectors|, |metadatas|).value
  {
    var score := scorer(query, vectors[if |vectors| == 1 then 0 else j]);
    var shown := if filter.None? || filter.value(metadatas[if |ids| == 1 then 0 else j]) then score else SUNK;
    Slot(shown, if j < |ids| && j < |vectors| && j < |metadatas| then Some(Hit(ids[j], shown, vectors[j], metadatas[j])) else None)
  }

  function Slots(scorer: Scorer, query: Vector, filter: Filter, ids: seq<string>, vectors: seq<Vector>, metadatas: seq<Json>): (slots: Option<seq<Slot>>)
    requires ids != [] && vectors != []
  {
    match Width(filter, |ids|, |vectors|, |metadatas|)
    case None => None
    case Some(n) => Some(seq(n, j requires 0 <= j < n => SlotAt(scorer, query, filter, ids, vectors, metadatas, j)))
  }

  /** Over lists of any lengths: a search raises exactly when its filter meets less metadata than ids, or as many ids
      as no vector or single one stands for. Otherwise there is a position for each vector, or each id where one
      vector stands for all; it has the row of all three lists, and a score that is never returned if the filter refuses it. */
  lemma SlotsIff(scorer: Scorer, query: Vector, filter: Filter, ids: seq<string>, vectors: seq<Vector>, metadatas: seq<Json>)
    requires ids != [] && vectors != []
    ensures var slots := Slots(scorer, query, filter, ids, vectors, metadatas);
      && (slots == None <==> filter.Some? && (|metadatas| < |ids| || (|ids| != |vectors| && |ids| > 1 && |vectors| > 1)))
      && (slots.Some? ==>
            && |slots.value| == (if filter.Some? && |vectors| == 1 then |ids| else |vectors|)
            && forall j :: 0 <= j < |slots.value| ==>
                 var s := slots.value[j];
                 && (s.hit.Some? <==> j < |ids| && j < |vectors| && j < |metadatas|)
                 && (s.hit.Some? ==> s.hit.value == Hit(ids[j], s.score, vectors[j], metadatas[j]))
                 && (if filter.None? || filter.value(metadatas[if |ids| == 1 then 0 else j])
                     then s.score == scorer(query, vectors[if |vectors| == 1 then 0 else j])
                     else s.score <= -100000000.0))
  {
  }

  /** The hits of the best slots, the sunk ones left out; nothing if one of them has no row, which raises. */
  ghost function Collected(top: seq<Slot>): Option<seq<Hit>> {
    if top == [] then Some([])
    else
      var last := top[|top| - 1];
      match Collected(top[..|top| - 1])
      case None => None
      case Some(hits) =>
        if last.score <= FLOOR then Some(hits)
        else if last.hit.None? then None else Some(hits + [last.hit.value])
  }

  /** The answer comes from some top k of the slots. */
  ghost predicate Answers(slots: seq<Slot>, topK: nat, r: Option<seq<Hit>>) {
    exists top :: IsTopK(SlotScore, top, multiset(slots), topK) && r == Collected(top)
  }

  lemma TopAnswers(slots: seq<Slot>, sorted: seq<Slot>, topK: nat)
    requires Descending(SlotScore, sorted) && multiset(sorted) == multiset(slots)
    ensures Answers(slots, topK, Collected(if |sorted| < topK then sorted else sorted[..topK]))
  {
    PrefixIsTopK(SlotScore, sorted, topK);
    hide IsTopK, Collected, Descending;
  }

  lemma {:induction false} CollectedIsAfloat(top: seq<Slot>)
    requires forall s :: s in top && s.hit.Some? ==> s.hit.value.score == s.score
    ensures Collected(top).Some? ==> forall h :: h in Collected(top).value ==> h.score > -100000000.0
  {
    if top != [] {
      CollectedIsAfloat(top[..|top| - 1]);
      assert top[|top| - 1] in top;
    }
  }

  method Collect(top: seq<Slot>) returns (r: Option<seq<Hit>>)
    ensures r == Collected(top)
  {
    var hits := [];
    for i := 0 to |top|
      invariant Collected(top[..i]) == Some(hits)
    {
      assert top[..i + 1][..i] == top[..i];
      if top[i].score > FLOOR {
        if top[i].hit == None {
          NoneStays(top, i + 1);
          return None;
        }
        hits := hits + [top[i].hit.value];
      }
    }
    assert top[..|top|] == top;
    r := Some(hits);
  }

  lemma {:induction false} NoneStays(top: seq<Slot>, i: nat)
    requires i <= |top| && Collected(top[..i]) == None
    ensures Collected(top) == None
    decreases |top| - i
  {
    if i == |top| {
      assert top[..i] == top;
    } else {
      assert top[..i + 1][..i] == top[..i];
      NoneStays(top, i + 1);
    }
  }

  // ----- lists in step -----

  function SlotOf(h: Hit): Slot {
    Slot(h.score, Some(h))
  }

  function HitsOf(slots: seq<Slot>): (hits: seq<Hit>)
    requires forall s :: s in slots ==> s.hit.Some?
    ensures |hits| == |slots|
  {
    seq(|slots|, i requires 0 <= i < |slots| => assert slots[i] in slots; slots[i].hit.value)
  }

  /** Every slot has the row of its own score. */
  ghost predicate Filled(slots: seq<Slot>) {
    forall s :: s in slots ==> s.hit.Some? && s == SlotOf(s.hit.value)
  }

  lemma {:induction false} SlotCount(slots: seq<Slot>, h: Hit)
    requires Filled(slots)
    ensures multiset(HitsOf(slots))[h] == multiset(slots)[SlotOf(h)]
  {
    if slots != [] {
      var n := |slots| - 1;
      assert slots == slots[..n] + [slots[n]] && HitsOf(slots) == HitsOf(slots[..n]) + [slots[n].hit.value];
      SlotCount(slots[..n], h);
    }
  }

  lemma SameHits(a: seq<Slot>, b: seq<Slot>)
    requires Filled(a) && multiset(a) == multiset(b)
    ensures Filled(b) && multiset(HitsOf(a)) == multiset(HitsOf(b))
  {
    forall s | s in b ensures s in a {
      assert s in multiset(b);
    }
    forall h ensures multiset(HitsOf(a))[h] == multiset(HitsOf(b))[h] {
      SlotCount(a, h);
      SlotCount(b, h);
    }
  }

  lemma {:induction false} CollectedHits(top: seq<Slot>)
    requires Filled(top)
    ensures Collected(top) == Some(Afloat(HitsOf(top)))
  {
    if top == [] {
      assert HitsOf(top) == [];
    } else {
      var n := |top| - 1;
      CollectedHits(top[..n]);
      assert top[n] in top && HitsOf(top)[..n] == HitsOf(top[..n]);
      var before := Afloat(HitsOf(top)[..n]);
      assert before + [] == before;
    }
  }

  lemma {:induction false} MaskedAfloat(scorer: Scorer, query: Vector, filter: Filter, rows: seq<Row>, hits: seq<Hit>)
    requires |hits| == |rows| && forall i :: 0 <= i < |rows| ==> hits[i] == Masked(scorer, query, filter, rows[i])
    ensures Afloat(hits) == Eligible(scorer, query, filter, rows)
  {
    if rows != [] {
      var n := |rows| - 1;
      MaskedAfloat(scorer, query, filter, rows[..n], hits[..n]);
    }
  }

  /** Over lists in step no position is missing, and the slots are the masked rows. */
  lemma SlotsInStep(scorer: Scorer, query: Vector, filter: Filter, ids: seq<string>, vectors: seq<Vector>, metadatas: seq<Json>)
    requires ids != [] && |ids| == |vectors| == |metadatas|
    ensures var slots := Slots(scorer, query, filter, ids, vectors, metadatas);
      slots.Some? && Filled(slots.value)
      && Afloat(HitsOf(slots.value)) == Eligible(scorer, query, filter, Rowed(ids, vectors, metadatas))
  {
    var slots := Slots(scorer, query, filter, ids, vectors, metadatas).value;
    var rows := Rowed(ids, vectors, metadatas);
    forall j | 0 <= j < |slots| ensures slots[j] == SlotOf(Masked(scorer, query, filter, rows[j])) {
    }
    MaskedAfloat(scorer, query, filter, rows, HitsOf(slots));
  }

  lemma HitsDescend(sorted: seq<Slot>, topK: nat)
    requires Filled(sorted) && Descending(SlotScore, sorted)
    ensures Descending(ScoreOf, HitsOf(sorted))
    ensures var top, hits := if |sorted| < topK then sorted else sorted[..topK], HitsOf(sorted);
      Filled(top) && HitsOf(top) == if |hits| < topK then hits else hits[..topK]
  {
    var hits := HitsOf(sorted);
    forall i | 0 <= i < |sorted| ensures hits[i].score == sorted[i].score {
      assert sorted[i] in sorted;
    }
  }

  /** Over lists in step the best slots are the best rows. */
  lemma InStepAnswer(scorer: Scorer, query: Vector, filter: Filter, rows: seq<Row>, slots: seq<Slot>, sorted: seq<Slot>, topK: nat)
    requires Filled(slots) && Afloat(HitsOf(slots)) == Eligible(scorer, query, filter, rows)
    requires Descending(SlotScore, sorted) && multiset(sorted) == multiset(slots)
    ensures var r := Collected(if |sorted| < topK then sorted else sorted[..topK]);
      r.Some? && IsTopK(ScoreOf, r.value, multiset(Eligible(scorer, query, filter, rows)), topK)
  {
    SameHits(slots, sorted);
    HitsDescend(sorted, topK);
    var top, hits := if |sorted| < topK then sorted else sorted[..topK], HitsOf(sorted);
    CollectedHits(top);
    hide IsTopK, Descending, Eligible, Afloat, Collected, Filled;
    AfloatBag(hits, HitsOf(slots));
    TruncateAfloat(hits, topK);
    AfloatDescends(hits);
    PrefixIsTopK(ScoreOf, Afloat(hits), topK);
  }

  /** What the best slots of a search come to. */
  lemma BestSlots(scorer: Scorer, query: Vector, filter: Filter, ids: seq<string>, vectors: seq<Vector>, metadatas: seq<Json>,
                  slots: seq<Slot>, sorted: seq<Slot>, topK: nat)
    requires ids != [] && vectors != [] && Slots(scorer, query, filter, ids, vectors, metadatas) == Some(slots)
    requires Descending(SlotScore, sorted) && multiset(sorted) == multiset(slots)
    ensures var r := Collected(if |sorted| < topK then sorted else sorted[..topK]);
      && (r.Some? ==> forall h :: h in r.value ==> h.score > -100000000.0)
      && (|ids| == |vectors| == |metadatas| ==>
            var rows := Rowed(ids, vectors, metadatas);
            && r.Some? && IsTopK(ScoreOf, r.value, multiset(Eligible(scorer, query, filter, rows)), topK)
            && Best(r.value, multiset(Eligible(scorer, query, filter, rows)), topK)
            && (Moderate(scorer, query, filter, rows) ==> Best(r.value, multiset(Matching(scorer, query, filter, rows)), topK)))
  {
    var top := if |sorted| < topK then sorted else sorted[..topK];
    forall s | s in top ensures s in slots {
      assert s in multiset(sorted);
    }
    CollectedIsAfloat(top);
    hide IsTopK, Best, Descending, Eligible, Matching, Moderate, Collected, Slots, Rowed, Filled, Afloat;
    if |ids| == |vectors| == |metadatas| {
      var rows := Rowed(ids, vectors, metadatas);
      SlotsInStep(scorer, query, filter, ids, vectors, metadatas);
      InStepAnswer(scorer, query, filter, rows, slots, sorted, topK);
      TopKIsBest(Collected(top).value, multiset(Eligible(scorer, query, filter, rows)), topK);
      if Moderate(scorer, query, filter, rows) {
        ModerateLosesNothing(scorer, query, filter, rows);
      }
    }
  }

  class FlatIndex {
    const scorer: Scorer
    const dimension: nat
    var ids: seq<string>
    var vectors: Option<seq<Vector>>
    var metadatas: seq<Json>
    var idToIdx: map<string, nat>

    /** The lookup table is that of the ids. */
    ghost predicate Indexed()
      reads this
    {
      LastPositions(ids, idToIdx)
    }

    /** The lists are in step. */
    ghost predicate Valid()
      reads this
    {
      Indexed() && |metadatas| == |ids| && (if vectors.None? then ids == [] else |vectors.value| == |ids| > 0)
    }

    /** There is no table of vectors without a row. */
    ghost predicate Shaped()
      reads this
    {
      vectors.Some? ==> vectors.value != []
    }

    /** The rows, in the order they were added; an id added twice has two. */
    ghost function Rows(): (rows: seq<Row>)
      requires Valid()
      reads this
    {
      Rowed(ids, Vectors(), metadatas)
    }

    function Vectors(): seq<Vector>
      reads this
    {
      if vectors.Some? then vectors.value else []
    }

    constructor (dimension: nat, scorer: Scorer)
      ensures Valid() && Shaped() && Rows() == [] && this.scorer == scorer && this.dimension == dimension
    {
      this.scorer, this.dimension := scorer, dimension;
      ids, vectors, metadatas, idToIdx := [], None, [], map[];
    }

    /** The bookkeeping loop of an addition: it stops where the metadata runs out, behind the id. */
    method AppendIds(newIds: seq<string>, given: seq<Json>) returns (ok: bool)
      modifies this`ids, this`metadatas, this`idToIdx
      ensures var n := Covered(given, |newIds|);
        && ok == (n == |newIds|)
        && ids == old(ids) + newIds[..if ok then n else n + 1]
        && metadatas == old(metadatas) + MetadatasOr(given, n)
        && idToIdx == old(idToIdx) + Shifted(Positions(newIds[..if ok then n else n + 1]), |old(ids)|)
      ensures old(Indexed()) ==> Indexed()
    {
      hide LastPositions, Positions, Shifted, MetadatasOr;
      PositionsOfNone(newIds, |ids|);
      assert MetadatasOr(given, 0) == [];
      var start := |ids|;
      ghost var n := Covered(given, |newIds|);
      for i := 0 to |newIds|
        invariant i <= n
        invariant ids == old(ids) + newIds[..i]
        invariant metadatas == old(metadatas) + MetadatasOr(given, i)
        invariant idToIdx == old(idToIdx) + Shifted(Positions(newIds[..i]), start)
        invariant old(Indexed()) ==> Indexed()
      {
        if Indexed() {
          LastPositionsAppend(ids, idToIdx, newIds[i]);
        }
        assert newIds[..i + 1] == newIds[..i] + [newIds[i]];
        PositionsNext(newIds, i, start);
        ids := ids + [newIds[i]];
        idToIdx := idToIdx[newIds[i] := start + i];
        if given != [] && i >= |given| {
          return false;
        }
        var m := if given == [] then Obj(map[]) else given[i];
        MetadatasNext(given, i);
        metadatas := metadatas + [m];
      }
      ok := true;
    }

    /** Appends rows. Vectors that are no table of this width raise and change nothing. The numbers of
        ids and vectors are not compared, and a metadata list that is too short raises in the middle. */
    method Add(newIds: seq<string>, newVectors: seq<Vector>, newMetadatas: Option<seq<Json>>) returns (ok: bool)
      requires Shaped()
      modifies this
      ensures Shaped() && (old(Indexed()) ==> Indexed())
      ensures var given := if newMetadatas.Some? then newMetadatas.value else [];
        var n := Covered(given, |newIds|);
        if newVectors != [] && forall v :: v in newVectors ==> |v| == dimension then
          && ok == (n == |newIds|)
          && vectors == Some(old(Vectors()) + newVectors)
          && metadatas == old(metadatas) + MetadatasOr(given, n)
          && ids == old(ids) + newIds[..if ok then n else n + 1]
          && idToIdx == old(idToIdx) + Shifted(Positions(newIds[..if ok then n else n + 1]), |old(ids)|)
          && (old(Valid()) ==> (Valid() <==> ok && |newIds| == |newVectors|))
          && (old(Valid()) && Valid() ==> Rows() == old(Rows()) + Rowed(newIds, newVectors, MetadatasOr(given, n)))
        else
          !ok && vectors == old(vectors) && metadatas == old(metadatas) && ids == old(ids) && idToIdx == old(idToIdx)
    {
      hide Rowed, MetadatasOr, Covered, LastPositions, Positions, Shifted;
      var given := if newMetadatas.Some? then newMetadatas.value else [];
      ok := newVectors != [] && forall v :: v in newVectors ==> |v| == dimension;
      if !ok {
        return;
      }
      ghost var before := (ids, Vectors(), metadatas);
      vectors := Some(Vectors() + newVectors);
      ok := AppendIds(newIds, given);
      if |before.0| == |before.1| == |before.2| && ok && |newIds| == |newVectors| {
        RowedConcat(before.0, before.1, before.2, newIds, newVectors, MetadatasOr(given, |newIds|));
        assert newIds[..|newIds|] == newIds;
      }
    }

    /** Every row of every one of the ids goes; the others stay, in their order. Over lists out of step the
        ids are cut first, then the metadata, then the vectors, and one that is too short raises. */
    method Delete(gone: set<string>) returns (ok: bool)
      requires Shaped()
      modifies this
      ensures Shaped()
      ensures var keep := Staying(old(ids), gone);
        var described := Within(keep, |old(metadatas)|);
        && ok == (described && (keep == [] || old(vectors).None? || Within(keep, |old(vectors).value|)))
        && ids == Pick(old(ids), keep)
        && metadatas == (if described then Pick(old(metadatas), keep) else old(metadatas))
        && vectors == (if !ok || (keep != [] && old(vectors).None?) then old(vectors)
                       else if keep == [] then None else Some(Pick(old(vectors).value, keep)))
        && (if ok then Indexed() else idToIdx == old(idToIdx))
      ensures old(Valid()) ==> ok && Valid() && Rows() == Kept(old(Rows()), gone)
    {
      var keep := Staying(ids, gone);
      if Valid() {
        StayingIsKept(ids, Vectors(), metadatas, gone);
      }
      hide Kept, Rowed, LastPositions;
      ids := Pick(ids, keep);
      if !Within(keep, |metadatas|) {
        return false;
      }
      metadatas := Pick(metadatas, keep);
      if keep == [] {
        vectors := None;
      } else if vectors.Some? {
        if !Within(keep, |vectors.value|) {
          return false;
        }
        vectors := Some(Pick(vectors.value, keep));
      }
      idToIdx := Positions(ids);
      ok := true;
    }

    /** Exact filtered top-k: over lists in step, for any scores, the best of the rows that pass the filter and
        are above the floor. Over others the best of the positions, if none of them lacks a row. */
    method Search(query: Vector, topK: nat, filter: Filter) returns (r: Option<seq<Hit>>)
      requires Shaped()
      ensures vectors == None || ids == [] ==> r == Some([])
      ensures vectors.Some? && ids != [] ==>
        match Slots(scorer, query, filter, ids, vectors.value, metadatas)
        case None => r == None
        case Some(slots) => Answers(slots, topK, r)
      ensures Valid() ==> r.Some? && IsTopK(ScoreOf, r.value, multiset(Eligible(scorer, query, filter, Rows())), topK)
      ensures Valid() ==> Best(r.value, multiset(Eligible(scorer, query, filter, Rows())), topK)
      ensures Valid() && Moderate(scorer, query, filter, Rows()) ==> Best(r.value, multiset(Matching(scorer, query, filter, Rows())), topK)
      ensures r.Some? ==> forall h :: h in r.value ==> h.score > -100000000.0
    {
      if vectors == None || |ids| == 0 {
        PrefixIsTopK(ScoreOf, [], topK);
        assert Valid() ==> Rows() == [];
        return Some([]);
      }
      hide IsTopK, Best, Descending, Eligible, Matching, Moderate, Collected, Slots, Rowed, Answers, Filled, LastPositions, Afloat;
      var slots := Slots(scorer, query, filter, ids, vectors.value, metadatas);
      if Valid() {
        SlotsInStep(scorer, query, filter, ids, vectors.value, metadatas);
      }
      if slots == None {
        return None;
      }
      var sorted := SortByScore(SlotScore, slots.value);
      var top := if |sorted| < topK then sorted else sorted[..topK];
      TopAnswers(slots.value, sorted, topK);
      r := Collect(top);
      BestSlots(scorer, query, filter, ids, vectors.value, metadatas, slots.value, sorted, topK);
    }
  }

  /** Every id maps to its last position. */
  ghost predicate LastPositions(ids: seq<string>, idToIdx: map<string, nat>) {
    && (forall id :: id in idToIdx <==> id in ids)
    && forall id :: id in idToIdx ==>
         idToIdx[id] < |ids| && ids[idToIdx[id]] == id && forall j :: idToIdx[id] < j < |ids| ==> ids[j] != id
  }

  lemma LastPositionsAppend(ids: seq<string>, idToIdx: map<string, nat>, id: string)
    requires LastPositions(ids, idToIdx)
    ensures LastPositions(ids + [id], idToIdx[id := |ids|])
  {
  }

  function Positions(ids: seq<string>): (m: map<string, nat>)
    ensures LastPositions(ids, m)
  {
    if ids == [] then map[]
    else
      var n := |ids| - 1;
      LastPositionsAppend(ids[..n], Positions(ids[..n]), ids[n]);
      assert ids[..n] + [ids[n]] == ids;
      Positions(ids[..n])[ids[n] := n]
  }

  function Shifted(m: map<string, nat>, start: nat): map<string, nat> {
    map id | id in m :: start + m[id]
  }

  lemma PositionsOfNone(ids: seq<string>, start: nat)
    ensures Shifted(Positions(ids[..0]), start) == map[]
  {
  }

  lemma ShiftedNext(m: map<string, nat>, id: string, n: nat, start: nat)
    ensures Shifted(m[id := n], start) == Shifted(m, start)[id := start + n]
  {
  }

  lemma PositionsNext(ids: seq<string>, i: nat, start: nat)
    requires i < |ids|
    ensures Shifted(Positions(ids[..i + 1]), start) == Shifted(Positions(ids[..i]), start)[ids[i] := start + i]
  {
    hide LastPositions, Shifted;
    assert ids[..i + 1][..i] == ids[..i];
    ShiftedNext(Positions(ids[..i]), ids[i], i, start);
  }

  ghost function Kept(rows: seq<Row>, gone: set<string>): seq<Row> {
    if rows == [] then []
    else Kept(rows[..|rows| - 1], gone) + (if rows[|rows| - 1].id in gone then [] else [rows[|rows| - 1]])
  }

  lemma KeptNext(rows: seq<Row>, gone: set<string>, i: nat)
    requires i < |rows|
    ensures Kept(rows[..i + 1], gone) == Kept(rows[..i], gone) + (if rows[i].id in gone then [] else [rows[i]])
  {
    assert rows[..i + 1][..i] == rows[..i];
  }

  /** A deleted id is in no later result. */
  lemma {:induction false} KeptHasNone(rows: seq<Row>, gone: set<string>, r: Row)
    ensures r in Kept(rows, gone) <==> r in rows && r.id !in gone
  {
    if rows != [] {
      var n := |rows| - 1;
      KeptHasNone(rows[..n], gone, r);
      assert rows == rows[..n] + [rows[n]];
    }
  }

  // ----- the query -----

  datatype QueryError = NamespaceNotFound | DimensionMismatch

  datatype Answer = Answer(results: seq<Hit>, shardCount: nat, totalCandidates: nat)

  /** What one shard contributes to a query: nothing, when it has no context in this process. */
  ghost function ShardRows(context: Option<FlatIndex>, query: Vector, filter: Filter): multiset<Hit>
    requires context.Some? ==> context.value.Valid()
    reads if context.Some? then {context.value} else {}
  {
    match context
    case None => multiset{}
    case Some(index) => multiset(Eligible(index.scorer, query, filter, index.Rows()))
  }

  ghost predicate ValidContexts(contexts: seq<Option<FlatIndex>>)
    reads set c | c in contexts && c.Some? :: c.value
  {
    forall c :: c in contexts && c.Some? ==> c.value.Valid()
  }

  /** All the rows of all the shards that a query may return. */
  ghost function AllRows(contexts: seq<Option<FlatIndex>>, query: Vector, filter: Filter): multiset<Hit>
    requires ValidContexts(contexts)
    reads set c | c in contexts && c.Some? :: c.value
  {
    if contexts == [] then multiset{}
    else
      AllRows(contexts[..|contexts| - 1], query, filter) + ShardRows(contexts[|contexts| - 1], query, filter)
  }

  /** All the rows of all the shards that pass the filter. */
  ghost function AllMatches(contexts: seq<Option<FlatIndex>>, query: Vector, filter: Filter): multiset<Hit>
    requires ValidContexts(contexts)
    reads set c | c in contexts && c.Some? :: c.value
  {
    if contexts == [] then multiset{}
    else
      AllMatches(contexts[..|contexts| - 1], query, filter)
      + match contexts[|contexts| - 1]
        case None => multiset{}
        case Some(index) => multiset(Matching(index.scorer, query, filter, index.Rows()))
  }

  ghost predicate AllModerate(contexts: seq<Option<FlatIndex>>, query: Vector, filter: Filter)
    requires ValidContexts(contexts)
    reads set c | c in contexts && c.Some? :: c.value
  {
    forall c :: c in contexts && c.Some? ==> Moderate(c.value.scorer, query, filter, c.value.Rows())
  }

  /** Nothing below the floor is among the rows of the shards, and without such rows nothing is missing. */
  lemma {:induction false} RowsAreMatches(contexts: seq<Option<FlatIndex>>, query: Vector, filter: Filter)
    requires ValidContexts(contexts)
    ensures forall h :: h in AllRows(contexts, query, filter) ==> h.score > -100000000.0
    ensures AllModerate(contexts, query, filter) ==> AllRows(contexts, query, filter) == AllMatches(contexts, query, filter)
  {
    hide Eligible, Matching, Moderate, FlatIndex.Valid, FlatIndex.Rows, Rowed;
    if contexts != [] {
      var n := |contexts| - 1;
      RowsAreMatches(contexts[..n], query, filter);
      var last := contexts[n];
      assert last in contexts;
      if last.Some? {
        IndexRowsAreMatches(last.value.scorer, query, filter, last.value.Rows());
      }
    }
  }

  lemma IndexRowsAreMatches(scorer: Scorer, query: Vector, filter: Filter, rows: seq<Row>)
    ensures forall h :: h in Eligible(scorer, query, filter, rows) ==> h.score > -100000000.0
    ensures Moderate(scorer, query, filter, rows) ==> Eligible(scorer, query, filter, rows) == Matching(scorer, query, filter, rows)
  {
    hide Eligible, Matching, Moderate;
    forall h | h in Eligible(scorer, query, filter, rows) ensures h.score > -100000000.0 {
      EligibleFrom(scorer, query, filter, rows, h);
    }
    if Moderate(scorer, query, filter, rows) {
      ModerateLosesNothing(scorer, query, filter, rows);
    }
  }

  /** How many candidates the shards contribute: each its top k, or all it has. */
  ghost function LocalTotal(contexts: seq<Option<FlatIndex>>, query: Vector, topK: nat, filter: Filter): nat
    requires ValidContexts(contexts)
    reads set c | c in contexts && c.Some? :: c.value
  {
    if contexts == [] then 0
    else
      var rows := |ShardRows(contexts[|contexts| - 1], query, filter)|;
      LocalTotal(contexts[..|contexts| - 1], query, topK, filter) + if rows < topK then rows else topK
  }

  lemma {:induction false} LocalsTotal(contexts: seq<Option<FlatIndex>>, locals: seq<seq<Hit>>, query: Vector, topK: nat, filter: Filter)
    requires ValidContexts(contexts) && |locals| == |contexts|
    requires forall i :: 0 <= i < |contexts| ==>
      contexts[i] in contexts && IsTopK(ScoreOf, locals[i], ShardRows(contexts[i], query, filter), topK)
    ensures |Joined(locals)| == LocalTotal(contexts, query, topK, filter)
  {
    hide ShardRows, FlatIndex.Valid;
    if contexts != [] {
      var n := |contexts| - 1;
      forall i | 0 <= i < n
        ensures contexts[..n][i] in contexts[..n] && IsTopK(ScoreOf, locals[..n][i], ShardRows(contexts[..n][i], query, filter), topK)
      {
        assert contexts[..n][i] == contexts[i];
      }
      LocalsTotal(contexts[..n], locals[..n], query, topK, filter);
    }
  }

  lemma {:induction false} RowsPerShard(contexts: seq<Option<FlatIndex>>, query: Vector, filter: Filter)
    returns (rows: seq<multiset<Hit>>)
    requires ValidContexts(contexts)
    ensures |rows| == |contexts| && Pooled(rows) == AllRows(contexts, query, filter)
    ensures forall i :: 0 <= i < |rows| ==> contexts[i] in contexts && rows[i] == ShardRows(contexts[i], query, filter)
  {
    hide ShardRows, FlatIndex.Valid;
    if contexts == [] {
      rows := [];
    } else {
      var n := |contexts| - 1;
      var init := RowsPerShard(contexts[..n], query, filter);
      rows := init + [ShardRows(contexts[n], query, filter)];
      assert rows[..n] == init;
    }
  }

  method SearchShard(context: Option<FlatIndex>, query: Vector, topK: nat, filter: Filter) returns (local: seq<Hit>)
    requires context.Some? ==> context.value.Valid()
    ensures IsTopK(ScoreOf, local, ShardRows(context, query, filter), topK)
  {
    match context
    case None =>
      local := [];
      PrefixIsTopK(ScoreOf, [], topK);
    case Some(index) =>
      var found := index.Search(query, topK, filter);
      local := found.value;
  }

  /** The merge: sort, over-fetch, truncate. */
  method Merge(candidates: seq<Hit>, topK: nat) returns (top: seq<Hit>)
    ensures IsTopK(ScoreOf, top, multiset(candidates), topK)
  {
    var sorted := SortByScore(ScoreOf, candidates);
    var wide := if |sorted| < 3 * topK then sorted else sorted[..3 * topK];
    top := if |wide| < topK then wide else wide[..topK];
    PrefixIsTopK(ScoreOf, sorted, topK);
    hide IsTopK, Descending;
    assert top == if |sorted| < topK then sorted else sorted[..topK];
  }

  /** The local top k of every shard. */
  method Gather(contexts: seq<Option<FlatIndex>>, query: Vector, topK: nat, filter: Filter) returns (locals: seq<seq<Hit>>)
    requires ValidContexts(contexts)
    ensures |locals| == |contexts|
    ensures forall i :: 0 <= i < |contexts| ==>
      contexts[i] in contexts && IsTopK(ScoreOf, locals[i], ShardRows(contexts[i], query, filter), topK)
  {
    locals := [];
    hide IsTopK, ShardRows, FlatIndex.Valid;
    for i := 0 to |contexts|
      invariant |locals| == i
      invariant forall j :: 0 <= j < i ==>
        contexts[j] in contexts && IsTopK(ScoreOf, locals[j], ShardRows(contexts[j], query, filter), topK)
    {
      assert contexts[i] in contexts;
      var local := SearchShard(contexts[i], query, topK, filter);
      locals := locals + [local];
    }
  }

  method Extend(locals: seq<seq<Hit>>) returns (candidates: seq<Hit>, scanned: nat)
    ensures candidates == Joined(locals) && scanned == |candidates|
  {
    candidates, scanned := [], 0;
    for i := 0 to |locals|
      invariant candidates == Joined(locals[..i]) && scanned == |candidates|
    {
      assert locals[..i + 1][..i] == locals[..i];
      candidates, scanned := candidates + locals[i], scanned + |locals[i]|;
    }
    assert locals[..|locals|] == locals;
  }

  lemma MergeContexts(contexts: seq<Option<FlatIndex>>, locals: seq<seq<Hit>>, query: Vector, topK: nat, filter: Filter)
    requires ValidContexts(contexts) && |locals| == |contexts|
    requires forall i :: 0 <= i < |contexts| ==>
      contexts[i] in contexts && IsTopK(ScoreOf, locals[i], ShardRows(contexts[i], query, filter), topK)
    ensures forall top :: IsTopK(ScoreOf, top, multiset(Joined(locals)), topK) ==>
      IsTopK(ScoreOf, top, AllRows(contexts, query, filter), topK)
    ensures |Joined(locals)| == LocalTotal(contexts, query, topK, filter)
  {
    LocalsTotal(contexts, locals, query, topK, filter);
    hide IsTopK, ShardRows, AllRows, FlatIndex.Valid;
    var rows := RowsPerShard(contexts, query, filter);
    forall top | IsTopK(ScoreOf, top, multiset(Joined(locals)), topK)
      ensures IsTopK(ScoreOf, top, AllRows(contexts, query, filter), topK)
    {
      MergeAll(top, locals, rows, topK);
    }
  }

  lemma BestOfAll(contexts: seq<Option<FlatIndex>>, locals: seq<seq<Hit>>, query: Vector, topK: nat, filter: Filter, top: seq<Hit>)
    requires ValidContexts(contexts) && |locals| == |contexts|
    requires forall i :: 0 <= i < |contexts| ==>
      contexts[i] in contexts && IsTopK(ScoreOf, locals[i], ShardRows(contexts[i], query, filter), topK)
    requires IsTopK(ScoreOf, top, multiset(Joined(locals)), topK)
    ensures IsTopK(ScoreOf, top, AllRows(contexts, query, filter), topK)
    ensures Best(top, AllRows(contexts, query, filter), topK)
    ensures forall h :: h in top ==> h.score > -100000000.0
    ensures AllModerate(contexts, query, filter) ==> Best(top, AllMatches(contexts, query, filter), topK)
    ensures |Joined(locals)| == LocalTotal(contexts, query, topK, filter)
  {
    hide IsTopK, Best, AllRows, AllMatches, AllModerate, ShardRows, ValidContexts, LocalTotal;
    MergeContexts(contexts, locals, query, topK, filter);
    TopKIsBest(top, AllRows(contexts, query, filter), topK);
    RowsAreMatches(contexts, query, filter);
    ResultsAreRows(top, AllRows(contexts, query, filter), topK);
  }

  /** Fan-out, merge and truncate: the results are the top k over the rows of all the shards
      together, however the rows are spread over them. */
  method RunQuery(dimension: Option<nat>, contexts: seq<Option<FlatIndex>>, query: Vector, topK: nat, filter: Filter)
    returns (r: Result<Answer, QueryError>)
    requires ValidContexts(contexts)
    ensures r.Failure? <==> dimension.None? || |query| != dimension.value
    ensures r.Failure? ==> r.error == if dimension.None? then NamespaceNotFound else DimensionMismatch
    ensures r.Success? ==>
      && IsTopK(ScoreOf, r.value.results, AllRows(contexts, query, filter), topK)
      && r.value.shardCount == |contexts| && r.value.totalCandidates == LocalTotal(contexts, query, topK, filter)
      && (forall h :: h in r.value.results ==> h.score > -100000000.0)
      && Best(r.value.results, AllRows(contexts, query, filter), topK)
      && (AllModerate(contexts, query, filter) ==> Best(r.value.results, AllMatches(contexts, query, filter), topK))
  {
    if dimension == None {
      return Failure(NamespaceNotFound);
    }
    if |query| != dimension.value {
      return Failure(DimensionMismatch);
    }
    hide IsTopK, Best, AllRows, AllMatches, AllModerate, ShardRows, ValidContexts, LocalTotal;
    var locals := Gather(contexts, query, topK, filter);
    var candidates, scanned := Extend(locals);
    var top := Merge(candidates, topK);
    BestOfAll(contexts, locals, query, topK, filter, top);
    r := Success(Answer(top, |contexts|, scanned));
  }

  lemma ResultsAreRows(top: seq<Hit>, rows: multiset<Hit>, topK: nat)
    requires IsTopK(ScoreOf, top, rows, topK)
    ensures forall h :: h in top ==> h in rows
  {
    forall h | h in top ensures h in rows {
      assert h in multiset(top);
    }
  }

  lemma MergeAll(top: seq<Hit>, locals: seq<seq<Hit>>, rows: seq<multiset<Hit>>, topK: nat)
    requires |locals| == |rows| && forall i :: 0 <= i < |rows| ==> IsTopK(ScoreOf, locals[i], rows[i], topK)
    requires IsTopK(ScoreOf, top, multiset(Joined(locals)), topK)
    ensures IsTopK(ScoreOf, top, Pooled(rows), topK)
  {
    hide IsTopK, Joined, Pooled;
    assert multiset(Joined(locals)) + multiset{} == multiset(Joined(locals));
    MergeIsExact(ScoreOf, top, locals, rows, multiset{}, topK);
    assert Pooled(rows) + multiset{} == Pooled(rows);
  }
}
