/**
 * GET /api/history: the signed-in user's records, newest first, at most
 * twenty, each projected to the fields the page shows.
 */
module HistoryRoute {
  import opened Wrappers
  import opened HistoryModel
  import opened Session
  import opened Http

  const UnauthorizedMessage := "Unauthorized. Please log in."
  const FetchFailedMessage := "Failed to fetch history"
  const PageSize := 20

  /** `find({ userId })`: the user's records in stored order. */
  function OwnedBy(history: seq<HistoryRecord>, userId: nat): (r: seq<HistoryRecord>)
    ensures forall k :: 0 <= k < |r| ==> r[k].userId == userId && r[k] in history
    ensures forall k :: 0 <= k < |history| && history[k].userId == userId ==> history[k] in r
  {
    if history == [] then []
    else
      var rest := OwnedBy(history[1..], userId);
      assert forall k :: 1 <= k < |history| ==> history[k] == history[1..][k - 1];
      if history[0].userId == userId then [history[0]] + rest else rest
  }

  /** The query returns each of the user's records exactly as often as it is stored, and no other. */
  lemma {:induction false} OwnedByCounts(history: seq<HistoryRecord>, userId: nat)
    ensures forall x :: multiset(OwnedBy(history, userId))[x] == if x.userId == userId then multiset(history)[x] else 0
  {
    if history != [] {
      assert history == [history[0]] + history[1..];
      OwnedByCounts(history[1..], userId);
    }
  }

  /** The query distributes over concatenation, so the user's records keep their stored order. */
  lemma {:induction false} OwnedByAppend(s: seq<HistoryRecord>, t: seq<HistoryRecord>, userId: nat)
    ensures OwnedBy(s + t, userId) == OwnedBy(s, userId) + OwnedBy(t, userId)
  {
    if s == [] {
      assert s + t == t;
    } else {
      assert (s + t)[1..] == s[1..] + t;
      OwnedByAppend(s[1..], t, userId);
    }
  }

  predicate NewestFirst(s: seq<HistoryRecord>) {
    forall i, j :: 0 <= i < j < |s| ==> s[i].createdAt >= s[j].createdAt
  }

  /** Putting a record in front of a sorted list keeps it sorted when the record is no older than the old head. */
  lemma {:induction false} ConsNewestFirst(h: HistoryRecord, s: seq<HistoryRecord>)
    requires NewestFirst(s) && (s != [] ==> s[0].createdAt <= h.createdAt)
    ensures NewestFirst([h] + s)
  {
    var r := [h] + s;
    forall i, j | 0 <= i < j < |r| ensures r[i].createdAt >= r[j].createdAt {
      if i == 0 {
        assert r[j] == s[j - 1];
        assert s[0].createdAt >= s[j - 1].createdAt;
      } else {
        assert r[i] == s[i - 1] && r[j] == s[j - 1];
      }
    }
  }

  /** Dropping the head of a sorted list keeps it sorted. */
  lemma TailNewestFirst(s: seq<HistoryRecord>)
    requires NewestFirst(s) && s != []
    ensures NewestFirst(s[1..])
  {
    forall i, j | 0 <= i < j < |s[1..]| ensures s[1..][i].createdAt >= s[1..][j].createdAt {
      assert s[1..][i] == s[i + 1] && s[1..][j] == s[j + 1];
    }
  }

  /** Inserts x before the first record that is no newer, so records of equal age keep their order. */
  function Insert(x: HistoryRecord, s: seq<HistoryRecord>): (r: seq<HistoryRecord>)
    requires NewestFirst(s)
    ensures NewestFirst(r)
    ensures multiset(r) == multiset(s) + multiset{x}
    ensures |r| == |s| + 1 && (r[0] == x || (s != [] && r[0] == s[0]))
  {
    if s == [] then [x]
    else if s[0].createdAt <= x.createdAt then
      ConsNewestFirst(x, s);
      [x] + s
    else
      TailNewestFirst(s);
      var rest := Insert(x, s[1..]);
      assert s == [s[0]] + s[1..];
      assert rest[0].createdAt <= s[0].createdAt by {
        if rest[0] != x { assert rest[0] == s[1]; }
      }
      ConsNewestFirst(s[0], rest);
      [s[0]] + rest
  }

  /** `sort({ createdAt: -1 })`: an insertion sort, newest first. */
  function SortNewestFirst(s: seq<HistoryRecord>): (r: seq<HistoryRecord>)
    ensures NewestFirst(r)
    ensures multiset(r) == multiset(s)
  {
    if s == [] then []
    else
      assert s == [s[0]] + s[1..];
      Insert(s[0], SortNewestFirst(s[1..]))
  }

  /** `limit(20)`. */
  function Limit(s: seq<HistoryRecord>): (r: seq<HistoryRecord>)
    ensures |r| <= PageSize && |r| <= |s| && r == s[..|r|]
    ensures |s| <= PageSize ==> r == s
  {
    if |s| <= PageSize then s else s[..PageSize]
  }

  /** The records the query returns. */
  function Newest(history: seq<HistoryRecord>, userId: nat): seq<HistoryRecord> {
    Limit(SortNewestFirst(OwnedBy(history, userId)))
  }

  /** One record as the response lists it. */
  function Project(rec: HistoryRecord): (item: HistoryItem)
    ensures item.id == rec.id && item.originalPrompt == rec.originalPrompt
    ensures item.enhancedPrompt == rec.enhancedPrompt && item.createdAt == rec.createdAt
    ensures item.metadata == rec.metadata
    ensures ParseCategory(item.category) == Some(rec.category)
  {
    ParseCategoryName(rec.category);
    HistoryItem(rec.id, rec.originalPrompt, rec.enhancedPrompt, CategoryName(rec.category), rec.createdAt, rec.metadata)
  }

  function ProjectAll(s: seq<HistoryRecord>): (r: seq<HistoryItem>)
    ensures |r| == |s|
    ensures forall k :: 0 <= k < |s| ==> r[k] == Project(s[k])
  {
    if s == [] then [] else [Project(s[0])] + ProjectAll(s[1..])
  }

  /**
   * The handler for the session `getSession` gave; `dbFault` stands for the
   * connection or the query throwing. `getSession` itself is taken as not
   * throwing: its cookie store fails only outside a request scope.
   */
  function Get(session: Option<Claims>, history: seq<HistoryRecord>, dbFault: bool): (r: Reply)
    ensures session.None? ==> r == Reply(401, ErrorBody(UnauthorizedMessage))
    ensures session.Some? && dbFault ==> r == Reply(500, ErrorBody(FetchFailedMessage))
    ensures r.status == 200 <==> session.Some? && !dbFault
    ensures r.status == 200 ==> r.body.HistoryBody? && |r.body.history| <= PageSize
  {
    if session.None? then Reply(401, ErrorBody(UnauthorizedMessage))
    else if dbFault then Reply(500, ErrorBody(FetchFailedMessage))
    else Reply(200, HistoryBody(ProjectAll(Newest(history, session.value.userId))))
  }

  /**
   * The returned records belong to the user, are newest first, number at
   * most twenty, and are records of the store.
   */
  lemma {:induction false} NewestSound(history: seq<HistoryRecord>, userId: nat)
    ensures var r := Newest(history, userId);
      && |r| <= PageSize
      && NewestFirst(r)
      && (forall k :: 0 <= k < |r| ==> r[k].userId == userId && r[k] in history)
  {
    var owned := OwnedBy(history, userId);
    var sorted := SortNewestFirst(owned);
    var r := Limit(sorted);
    forall k | 0 <= k < |r| ensures r[k].userId == userId && r[k] in history {
      assert r[k] == sorted[k];
      assert r[k] in multiset(sorted);
      assert r[k] in multiset(owned);
      assert r[k] in owned;
    }
  }

  /**
   * Nothing newer is left out: the returned records and the omitted ones
   * together are exactly the user's records, and every omitted record is no
   * newer than every returned one. With at most twenty records, all of them
   * are returned.
   */
  lemma {:induction false} OmittedNoNewer(history: seq<HistoryRecord>, userId: nat)
    ensures var sorted := SortNewestFirst(OwnedBy(history, userId));
      var r := Newest(history, userId);
      var omitted := sorted[|r|..];
      && multiset(r) + multiset(omitted) == multiset(OwnedBy(history, userId))
      && (forall i, j :: 0 <= i < |r| && 0 <= j < |omitted| ==> omitted[j].createdAt <= r[i].createdAt)
      && (|OwnedBy(history, userId)| <= PageSize ==> omitted == [])
  {
    var sorted := SortNewestFirst(OwnedBy(history, userId));
    var r := Newest(history, userId);
    assert sorted == r + sorted[|r|..];
    var omitted := sorted[|r|..];
    forall i, j | 0 <= i < |r| && 0 <= j < |omitted| ensures omitted[j].createdAt <= r[i].createdAt {
      assert omitted[j] == sorted[|r| + j] && r[i] == sorted[i];
    }
    calc {
      multiset(r) + multiset(omitted);
      multiset(r + omitted);
      multiset(sorted);
    }
    assert |sorted| == |OwnedBy(history, userId)| by {
      assert |multiset(sorted)| == |multiset(OwnedBy(history, userId))|;
    }
  }

  /** Every record of the user is in the query's input, so no record of theirs is lost before the limit. */
  lemma {:induction false} EveryOwnedRecordConsidered(history: seq<HistoryRecord>, userId: nat, k: nat)
    requires k < |history| && history[k].userId == userId
    ensures history[k] in SortNewestFirst(OwnedBy(history, userId))
  {
    var owned := OwnedBy(history, userId);
    assert history[k] in owned;
    assert history[k] in multiset(SortNewestFirst(owned));
  }

  /**
   * The reply: with a session, every item is the projection of one of the
   * user's stored records, the items run newest first, and there are at
   * most twenty.
   */
  lemma {:induction false} ReplyListsOwnRecords(session: Option<Claims>, history: seq<HistoryRecord>)
    requires session.Some?
    ensures var items := Get(session, history, false).body.history;
      var recs := Newest(history, session.value.userId);
      && |items| == |recs| <= PageSize
      && (forall k :: 0 <= k < |items| ==>
            items[k] == Project(recs[k]) && recs[k].userId == session.value.userId && recs[k] in history)
      && (forall i, j :: 0 <= i < j < |items| ==> items[i].createdAt >= items[j].createdAt)
  {
    NewestSound(history, session.value.userId);
  }
}
