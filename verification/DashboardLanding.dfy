/** What every landing answer leaves in the list it was asked for, row by row. */
module DashboardLanding {
  import opened DashboardStore

  // ---------------------------------------------------------------- lists compared

  /** The elements of one list, in order, are some of the other's. */
  predicate InOrder(part: seq<Item>, whole: seq<Item>)
    decreases |whole|
  {
    part == []
    || (whole != [] && (InOrder(part, whole[1..]) || (part[0] == whole[0] && InOrder(part[1..], whole[1..]))))
  }

  /** All of the front, then what the back adds to it: every row whose id the front lacks, in the order of the back. */
  predicate Joined(front: seq<Item>, back: seq<Item>, joined: seq<Item>) {
    && front <= joined && InOrder(joined[|front|..], back)
    && (forall j :: |front| <= j < |joined| ==> !HasId(front, joined[j].row.id))
    && (forall i :: 0 <= i < |back| && !HasId(front, back[i].row.id) ==> Among(back[i], joined[|front|..]))
  }

  /** A joined list shows exactly the ids of its parts. */
  lemma JoinedIds(front: seq<Item>, back: seq<Item>, joined: seq<Item>, id: string)
    requires Joined(front, back, joined)
    ensures HasId(joined, id) <==> HasId(front, id) || HasId(back, id)
  {
    if i :| 0 <= i < |joined| && joined[i].row.id == id {
      if i < |front| {
        assert front[i] == joined[i];
      } else {
        assert joined[|front|..][i - |front|] == joined[i];
        PartIsAmong(joined[|front|..], back, i - |front|);
      }
    }
    if i :| 0 <= i < |front| && front[i].row.id == id {
      assert joined[i] == front[i];
    } else if i :| 0 <= i < |back| && back[i].row.id == id {
      assert Among(back[i], joined[|front|..]);
      var j :| 0 <= j < |joined[|front|..]| && joined[|front|..][j] == back[i];
      assert joined[|front| + j].row.id == id;
    }
  }

  lemma {:induction false} PartIsAmong(part: seq<Item>, whole: seq<Item>, i: nat)
    requires InOrder(part, whole) && i < |part|
    ensures Among(part[i], whole)
    decreases |whole|
  {
    if InOrder(part, whole[1..]) {
      PartIsAmong(part, whole[1..], i);
      AmongRest(part[i], whole);
    } else if i > 0 {
      PartIsAmong(part[1..], whole[1..], i - 1);
      AmongRest(part[i], whole);
    } else {
      assert whole[0] == part[0];
    }
  }

  lemma {:induction false} UnlistedInOrder(next: seq<Item>, ids: set<string>)
    ensures InOrder(Unlisted(next, ids), next)
    decreases |next|
  {
    if next != [] {
      UnlistedInOrder(next[1..], ids);
      if next[0].row.id in ids {
        assert Unlisted(next, ids) == Unlisted(next[1..], ids);
      } else {
        assert Unlisted(next, ids)[1..] == Unlisted(next[1..], ids);
      }
    }
  }

  lemma {:induction false} UnlistedTakes(next: seq<Item>, ids: set<string>, i: nat)
    requires i < |next| && next[i].row.id !in ids
    ensures Among(next[i], Unlisted(next, ids))
    decreases |next|
  {
    var rest := Unlisted(next[1..], ids);
    if i == 0 {
      assert Unlisted(next, ids)[0] == next[0];
    } else {
      UnlistedTakes(next[1..], ids, i - 1);
      var j :| 0 <= j < |rest| && rest[j] == next[i];
      assert Unlisted(next, ids)[if next[0].row.id in ids then j else j + 1] == next[i];
    }
  }

  lemma IdsAreShown(items: seq<Item>, id: string)
    ensures id in Ids(items) <==> HasId(items, id)
  {
    IdsExactly(items, id);
  }

  lemma {:induction false} NothingAdded(front: seq<Item>)
    ensures Joined(front, [], front)
  {
    assert front[|front|..] == [];
  }

  /** `appendUniqueByKey` joins. */
  lemma AppendUniqueJoins(front: seq<Item>, back: seq<Item>)
    ensures Joined(front, back, AppendUnique(front, back))
  {
    if back == [] {
      NothingAdded(front);
    } else {
      var tail := Unlisted(back, Ids(front));
      assert AppendUnique(front, back)[|front|..] == tail;
      UnlistedInOrder(back, Ids(front));
      forall j | 0 <= j < |tail|
        ensures !HasId(front, tail[j].row.id)
      {
        UnlistedSelects(back, Ids(front), j);
        IdsAreShown(front, tail[j].row.id);
      }
      forall i | 0 <= i < |back| && !HasId(front, back[i].row.id)
        ensures Among(back[i], tail)
      {
        IdsAreShown(front, back[i].row.id);
        UnlistedTakes(back, Ids(front), i);
      }
    }
  }

  /** Exactly the rows with another parent, in order. */
  predicate Spared(before: seq<Item>, after: seq<Item>, parent: string) {
    && InOrder(after, before)
    && (forall j :: 0 <= j < |after| ==> after[j].row.parent != parent)
    && (forall i :: 0 <= i < |before| && before[i].row.parent != parent ==> Among(before[i], after))
  }

  lemma {:induction false} WithoutTakes(items: seq<Item>, parent: string, i: nat)
    requires i < |items| && items[i].row.parent != parent
    ensures Among(items[i], Without(items, parent))
    decreases |items|
  {
    var rest := Without(items[1..], parent);
    if i == 0 {
      assert Without(items, parent)[0] == items[0];
    } else {
      WithoutTakes(items[1..], parent, i - 1);
      var j :| 0 <= j < |rest| && rest[j] == items[i];
      assert Without(items, parent)[if items[0].row.parent == parent then j else j + 1] == items[i];
    }
  }

  lemma {:induction false} WithoutInOrder(items: seq<Item>, parent: string)
    ensures InOrder(Without(items, parent), items)
    decreases |items|
  {
    if items != [] {
      WithoutInOrder(items[1..], parent);
      if items[0].row.parent == parent {
        assert Without(items, parent) == Without(items[1..], parent);
      } else {
        assert Without(items, parent)[1..] == Without(items[1..], parent);
      }
    }
  }

  lemma WithoutSpares(items: seq<Item>, parent: string)
    ensures Spared(items, Without(items, parent), parent)
  {
    WithoutInOrder(items, parent);
    forall j | 0 <= j < |Without(items, parent)|
      ensures Without(items, parent)[j].row.parent != parent
    {
      WithoutSelects(items, parent, j);
    }
    forall i | 0 <= i < |items| && items[i].row.parent != parent
      ensures Among(items[i], Without(items, parent))
    {
      WithoutTakes(items, parent, i);
    }
  }

  /** Every row is where it was, with the sent one in place of the one of its id. */
  predicate Replaced(before: seq<Item>, after: seq<Item>, item: Item) {
    && |after| == |before|
    && forall j :: 0 <= j < |after| ==> after[j] == if before[j].row.id == item.row.id then item else before[j]
  }

  /** The rows of the answer, in order, as asked for by the request. */
  predicate Pages(items: seq<Item>, r: Request, rows: seq<Row>) {
    && |items| == |rows|
    && forall i :: 0 <= i < |rows| ==>
      items[i].row == rows[i] && items[i].generation == r.generation && items[i].owner == r.owner
  }

  predicate Has(rows: seq<Row>, id: string) {
    exists j :: 0 <= j < |rows| && rows[j].id == id
  }

  // ---------------------------------------------------------------- what answers do

  /** What each kind of answer makes of a list. */
  ghost predicate Shown(before: Slice, after: Slice, r: Request, rows: seq<Row>, next: string) {
    exists page ::
      Pages(page, r, rows) && ShownPage(before, after, r, page, next)
  }

  predicate ShownPage(before: Slice, after: Slice, r: Request, page: seq<Item>, next: string) {
    match r.action
    case Full =>
      if r.kind.EntitlementEvents? then after == before
      else
        && after.items == page && after.cursor == next
        && (after.loadingMore <==> before.loadingMore && r.kind.AlertEvents?)
    case Details => after.items == page && after.cursor == next && after.loadingMore == before.loadingMore
    case Refresh(keep) =>
      && after.loadingMore == before.loadingMore
      && if keep && |before.items| > |page| then
           Joined(page, before.items, after.items) && after.cursor == before.cursor
         else after.items == page && after.cursor == next
    case More(_) => Joined(before.items, page, after.items) && after.cursor == next && !after.loadingMore
    case Queue => Joined(page, before.items, after.items) && after == before.(items := after.items)
    case Evaluate => Joined(page, before.items, after.items) && after == before.(items := after.items)
    case Update(_) =>
      |page| == 1 && Replaced(before.items, after.items, page[0]) && after == before.(items := after.items)
    case Delete(parent) => Spared(before.items, after.items, parent) && after == before.(items := after.items)
  }

  lemma ListedPages(r: Request, rows: seq<Row>)
    ensures Pages(Listed(r, rows), r, rows)
  {
  }

  lemma LandedShows(slice: Slice, r: Request, rows: seq<Row>, next: string)
    requires Sensible(r, Page(rows, next))
    ensures ShownPage(slice, Landed(slice, r, Page(rows, next)), r, Listed(r, rows), next)
  {
    var page := Listed(r, rows);
    match r.action
    case Refresh(_) => AppendUniqueJoins(page, slice.items);
    case More(_) => AppendUniqueJoins(slice.items, page);
    case Queue => AppendUniqueJoins(page, slice.items);
    case Evaluate => AppendUniqueJoins(page, slice.items);
    case Delete(parent) => WithoutSpares(slice.items, parent);
    case _ =>
  }

  /**
   * An answer that is not dropped does to the list it was asked for what its action promises: a page of more rows
   * is added, a reload replaces or is joined with what was there, a new job or event comes first, an updated job
   * stays in place, a deletion takes away the rows of its parent alone. It does nothing to the other lists.
   */
  lemma AnswersAreShown(s: State, i: nat, rows: seq<Row>, next: string)
    requires Enabled(s, Land(i, Page(rows, next)))
    requires Guarded(s.inFlight[i].action) ==> s.inFlight[i].generation == s.generation
    ensures var r, after := s.inFlight[i], Next(s, Land(i, Page(rows, next)));
      && Shown(SliceOf(s, r.kind), SliceOf(after, r.kind), r, rows, next)
      && forall k :: k != r.kind ==> SliceOf(after, k) == SliceOf(s, k)
  {
    var r := s.inFlight[i];
    OtherSlices(s, Land(i, Page(rows, next)));
    ListedPages(r, rows);
    LandedShows(SliceOf(s, r.kind), r, rows, next);
  }

  /** A page that was asked for with more rows is listed in full, behind what was there, and can be followed up. */
  lemma MoreIsListed(s: State, i: nat, rows: seq<Row>, next: string)
    requires ListsAreDistinct(s) && Enabled(s, Land(i, Page(rows, next)))
    requires s.inFlight[i].action.More? && s.inFlight[i].generation == s.generation
    ensures var r := s.inFlight[i];
        var before, after := SliceOf(s, r.kind), SliceOf(Next(s, Land(i, Page(rows, next))), r.kind);
      && before.items <= after.items && after.cursor == next && !after.loadingMore && Distinct(after.items)
      && (forall id :: HasId(after.items, id) <==> HasId(before.items, id) || Has(rows, id))
      && (forall j :: 0 <= j < |rows| && !HasId(before.items, rows[j].id) ==>
            Among(Item(rows[j], r.generation, r.owner), after.items[|before.items|..]))
      && InOrder(after.items[|before.items|..], Listed(r, rows))
  {
    var r := s.inFlight[i];
    var before, page := SliceOf(s, r.kind).items, Listed(r, rows);
    OtherSlices(s, Land(i, Page(rows, next)));
    AppendUniqueJoins(before, page);
    StepKeepsDistinct(s, Land(i, Page(rows, next)));
    var after := AppendUnique(before, page);
    forall id
      ensures HasId(after, id) <==> HasId(before, id) || Has(rows, id)
    {
      JoinedIds(before, page, after, id);
      PageIds(r, rows, id);
    }
    forall j | 0 <= j < |rows| && !HasId(before, rows[j].id)
      ensures Among(Item(rows[j], r.generation, r.owner), after[|before|..])
    {
      assert page[j] == Item(rows[j], r.generation, r.owner);
    }
  }

  lemma PageIds(r: Request, rows: seq<Row>, id: string)
    ensures HasId(Listed(r, rows), id) <==> Has(rows, id)
  {
    if j :| 0 <= j < |rows| && rows[j].id == id {
      assert Listed(r, rows)[j].row.id == id;
    }
  }

  /** A failed answer leaves every row, except that details that cannot be had empty their list. */
  lemma FailuresLeaveRows(s: State, i: nat)
    requires Enabled(s, Land(i, Failed))
    ensures var r, after := s.inFlight[i], Next(s, Land(i, Failed));
        var lists := SliceOf(after, r.kind);
      && (forall k :: k != r.kind ==> SliceOf(after, k) == SliceOf(s, k))
      && (if r.generation == s.generation && r.action.Details? then lists.items == [] && lists.cursor == ""
          else lists.items == SliceOf(s, r.kind).items && lists.cursor == SliceOf(s, r.kind).cursor)
      && (lists.loadingMore <==>
          SliceOf(s, r.kind).loadingMore && !(r.generation == s.generation && r.action.More?))
  {
    OtherSlices(s, Land(i, Failed));
  }

  /** The answer to a guarded request of an earlier generation is dropped: only the request is gone. */
  lemma StaleAnswersAreDropped(s: State, i: nat, answer: Answer)
    requires Enabled(s, Land(i, answer)) && s.inFlight[i].generation != s.generation
    requires !s.inFlight[i].action.Evaluate? && !s.inFlight[i].action.Update? && !s.inFlight[i].action.Delete?
    ensures Next(s, Land(i, answer)) == s.(inFlight := s.inFlight[..i] + s.inFlight[i + 1..])
  {
  }
}
