/**
 * The dashboard's store as a state machine. A request remembers the generation it was issued in; most answers
 * are dropped when the generation has moved on, a few actions land their answers unconditionally.
 */
module DashboardStore {
  import opened Options
  import Runs

  /** Who is signed in: a user in a workspace. */
  datatype Session = Session(userID: string, workspaceID: string)

  const NOBODY := Session("", "")

  /** A row as the server sends it; `parent` is an alert event's rule or an entitlement event's subject. */
  datatype Row = Row(id: string, parent: string, body: string)

  /** A listed row, with the generation and the session its request was made under. */
  datatype Item = Item(row: Row, generation: nat, owner: Session)

  datatype Slice = Slice(items: seq<Item>, cursor: string, loadingMore: bool)

  const EMPTY_SLICE := Slice([], "", false)

  datatype Kind = AlertEvents | EntitlementEvents | ExportJobs

  /**
   * `Full` loads a page's whole section, `Details` is the second half of that for plans, `Refresh` reloads one
   * list, `More` fetches the next page, `Queue` creates an export job. `Evaluate`, `Update` (cancelling or
   * retrying a job) and `Delete` land their answers whatever the generation.
   */
  datatype Action =
    | Full | Details | Refresh(keep: bool) | More(cursor: string) | Queue
    | Evaluate | Update(retry: bool) | Delete(parent: string)

  datatype Request = Request(kind: Kind, action: Action, generation: nat, owner: Session)

  datatype Answer = Page(rows: seq<Row>, next: string) | Failed

  datatype State = State(generation: nat, session: Option<Session>, alerts: Slice, plans: Slice, exports: Slice,
                         inFlight: seq<Request>, logouts: nat)

  datatype Step =
    | SetAuthSession(session: Option<Session>)
    | SignIn
    | SignOut
    | SignedOut
    | Begin(kind: Kind, action: Action)
    | Land(index: nat, answer: Answer)

  const INITIAL := State(0, None, EMPTY_SLICE, EMPTY_SLICE, EMPTY_SLICE, [], 0)

  function Identity(session: Option<Session>): Session {
    if session.Some? then session.value else NOBODY
  }

  function SliceOf(s: State, k: Kind): Slice {
    match k case AlertEvents => s.alerts case EntitlementEvents => s.plans case ExportJobs => s.exports
  }

  function WithSlice(s: State, k: Kind, slice: Slice): State {
    match k
    case AlertEvents => s.(alerts := slice)
    case EntitlementEvents => s.(plans := slice)
    case ExportJobs => s.(exports := slice)
  }

  // ---------------------------------------------------------------- lists

  function Ids(items: seq<Item>): set<string>
    decreases |items|
  {
    if items == [] then {} else {items[0].row.id} + Ids(items[1..])
  }

  function Unlisted(next: seq<Item>, ids: set<string>): seq<Item>
    decreases |next|
  {
    if next == [] then []
    else (if next[0].row.id in ids then [] else [next[0]]) + Unlisted(next[1..], ids)
  }

  /** `appendUniqueByKey`, by id. */
  function AppendUnique(current: seq<Item>, next: seq<Item>): seq<Item> {
    if next == [] then current else current + Unlisted(next, Ids(current))
  }

  /** `mergeByID` */
  function Merge(next: seq<Item>, current: seq<Item>): seq<Item> {
    AppendUnique(next, current)
  }

  function Without(items: seq<Item>, parent: string): seq<Item>
    decreases |items|
  {
    if items == [] then []
    else (if items[0].row.parent == parent then [] else [items[0]]) + Without(items[1..], parent)
  }

  function Upsert(items: seq<Item>, item: Item): (r: seq<Item>)
    ensures |r| == |items|
    ensures forall i :: 0 <= i < |r| ==> r[i] == if items[i].row.id == item.row.id then item else items[i]
  {
    seq(|items|, i requires 0 <= i < |items| => if items[i].row.id == item.row.id then item else items[i])
  }

  function Listed(r: Request, rows: seq<Row>): (items: seq<Item>)
    ensures |items| == |rows| && forall i :: 0 <= i < |rows| ==> items[i] == Item(rows[i], r.generation, r.owner)
  {
    seq(|rows|, i requires 0 <= i < |rows| => Item(rows[i], r.generation, r.owner))
  }

  // ---------------------------------------------------------------- steps

  function Reset(s: State): State {
    s.(generation := s.generation + 1, alerts := EMPTY_SLICE, plans := EMPTY_SLICE, exports := EMPTY_SLICE)
  }

  function Issue(s: State, k: Kind, a: Action): State {
    s.(inFlight := s.inFlight + [Request(k, a, s.generation, Identity(s.session))])
  }

  /** Which actions the store has, and the answers a server gives them. */
  predicate Offered(k: Kind, a: Action) {
    match a
    case Details => false
    case Queue => k.ExportJobs?
    case Update(_) => k.ExportJobs?
    case Evaluate => k.AlertEvents?
    case Delete(_) => !k.ExportJobs?
    case _ => true
  }

  predicate DistinctRows(rows: seq<Row>) {
    forall i, j :: 0 <= i < j < |rows| ==> rows[i].id != rows[j].id
  }

  predicate Sensible(r: Request, answer: Answer) {
    answer.Page? ==> DistinctRows(answer.rows) && (r.action.Queue? || r.action.Update? ==> |answer.rows| == 1)
  }

  predicate Enabled(s: State, t: Step) {
    match t
    case Begin(k, a) => Offered(k, a)
    case Land(i, answer) => i < |s.inFlight| && Sensible(s.inFlight[i], answer)
    case SignedOut => s.logouts > 0
    case _ => true
  }

  predicate Guarded(a: Action) {
    !a.Evaluate? && !a.Update? && !a.Delete?
  }

  function Began(s: State, k: Kind, a: Action): State {
    var slice := SliceOf(s, k);
    match a
    case Full => Issue(if k.ExportJobs? then s else WithSlice(s, k, slice.(loadingMore := false)), k, a)
    case More(_) =>
      if slice.cursor == "" || slice.loadingMore then s
      else Issue(WithSlice(s, k, slice.(loadingMore := true)), k, More(slice.cursor))
    case _ => Issue(s, k, a)
  }

  /** What an answer does to the list it was asked for. */
  function Landed(slice: Slice, r: Request, answer: Answer): Slice {
    match (r.action, answer)
    case (Full, Page(rows, next)) =>
      if r.kind.EntitlementEvents? then slice
      else Slice(Listed(r, rows), next, slice.loadingMore && !r.kind.ExportJobs?)
    case (Details, Page(rows, next)) => slice.(items := Listed(r, rows), cursor := next)
    case (Details, Failed) => slice.(items := [], cursor := "")
    case (Refresh(keep), Page(rows, next)) =>
      if keep && |slice.items| > |rows| then slice.(items := Merge(Listed(r, rows), slice.items))
      else slice.(items := Listed(r, rows), cursor := next)
    case (More(_), Page(rows, next)) => Slice(AppendUnique(slice.items, Listed(r, rows)), next, false)
    case (More(_), Failed) => slice.(loadingMore := false)
    case (Queue, Page(rows, _)) => slice.(items := Merge(Listed(r, rows), slice.items))
    case (Evaluate, Page(rows, _)) => slice.(items := Merge(Listed(r, rows), slice.items))
    case (Update(_), Page(rows, _)) =>
      if |rows| == 1 then slice.(items := Upsert(slice.items, Listed(r, rows)[0])) else slice
    case (Delete(parent), Page(_, _)) => slice.(items := Without(slice.items, parent))
    case (_, _) => slice
  }

  /** The request that an answer gives rise to. */
  function FollowUp(s: State, r: Request, answer: Answer): State {
    if answer.Failed? then s
    else if r.action.Full? && r.kind.EntitlementEvents? then
      s.(inFlight := s.inFlight + [Request(r.kind, Details, r.generation, Identity(s.session))])
    else if r.action.Queue? || r.action == Update(true) then Issue(s, r.kind, Refresh(true))
    else s
  }

  function Next(s: State, t: Step): State {
    if !Enabled(s, t) then s
    else match t
      case SetAuthSession(session) =>
        (if Identity(s.session) != Identity(session) then Reset(s) else s).(session := session)
      case SignIn => Reset(s).(session := None)
      case SignOut => Reset(s).(session := None, logouts := s.logouts + 1)
      case SignedOut => s.(session := None, logouts := s.logouts - 1)
      case Begin(k, a) => Began(s, k, a)
      case Land(i, answer) =>
        var r := s.inFlight[i];
        var rest := s.(inFlight := s.inFlight[..i] + s.inFlight[i + 1..]);
        if Guarded(r.action) && r.generation != s.generation then rest
        else FollowUp(WithSlice(rest, r.kind, Landed(SliceOf(rest, r.kind), r, answer)), r, answer)
  }

  // ---------------------------------------------------------------- invariants

  predicate Distinct(items: seq<Item>) {
    forall i, j :: 0 <= i < j < |items| ==> items[i].row.id != items[j].row.id
  }

  predicate Belongs(item: Item, generation: nat, who: Session) {
    item.generation == generation && item.owner == who
  }

  predicate AllBelong(items: seq<Item>, generation: nat, who: Session) {
    forall i :: 0 <= i < |items| ==> Belongs(items[i], generation, who)
  }

  /** No request is from the future, and one of this generation was made by `who`. */
  predicate Timely(r: Request, generation: nat, who: Session) {
    r.generation <= generation && (r.generation == generation ==> r.owner == who)
  }

  predicate AllTimely(requests: seq<Request>, generation: nat, who: Session) {
    forall i :: 0 <= i < |requests| ==> Timely(requests[i], generation, who)
  }

  predicate Awaited(inFlight: seq<Request>, k: Kind, generation: nat) {
    exists i :: 0 <= i < |inFlight| && inFlight[i].kind == k && inFlight[i].action.More?
        && inFlight[i].generation == generation
  }

  /** The loading-more flag tells of a request of this generation that is in flight. */
  predicate FlagsAreTrue(s: State) {
    forall k :: SliceOf(s, k).loadingMore ==> Awaited(s.inFlight, k, s.generation)
  }

  predicate ListsAreDistinct(s: State) {
    forall k :: Distinct(SliceOf(s, k).items)
  }

  predicate RowsAreOwned(s: State) {
    forall k :: AllBelong(SliceOf(s, k).items, s.generation, Identity(s.session))
  }

  predicate RequestsAreOwned(s: State) {
    AllTimely(s.inFlight, s.generation, Identity(s.session))
  }

  /** All that is listed or asked for in this generation was asked for by who is signed in now. */
  predicate Owned(s: State) {
    RowsAreOwned(s) && RequestsAreOwned(s)
  }

  /** Every listed row was asked for in this generation, and no request is from a later one. */
  predicate Dated(s: State) {
    && (forall k :: AllDated(SliceOf(s, k).items, s.generation))
    && (forall i :: 0 <= i < |s.inFlight| ==> s.inFlight[i].generation <= s.generation)
  }

  predicate AllDated(items: seq<Item>, generation: nat) {
    forall i :: 0 <= i < |items| ==> items[i].generation == generation
  }

  // ---------------------------------------------------------------- lists keep their properties

  lemma {:induction false} IdsExactly(items: seq<Item>, id: string)
    ensures id in Ids(items) <==> exists i :: 0 <= i < |items| && items[i].row.id == id
    decreases |items|
  {
    if items != [] {
      IdsExactly(items[1..], id);
      if id in Ids(items[1..]) {
        var i :| 0 <= i < |items[1..]| && items[1..][i].row.id == id;
        assert items[i + 1].row.id == id;
      }
      if i :| 0 <= i < |items| && items[i].row.id == id {
        assert i > 0 ==> items[1..][i - 1].row.id == id;
      }
    }
  }

  predicate Among(item: Item, items: seq<Item>) {
    exists j :: 0 <= j < |items| && items[j] == item
  }

  lemma AmongRest(item: Item, items: seq<Item>)
    requires items != [] && Among(item, items[1..])
    ensures Among(item, items)
  {
    var j :| 0 <= j < |items[1..]| && items[1..][j] == item;
    assert items[j + 1] == item;
  }

  /** The filtered page holds rows of the page that are not listed yet. */
  lemma {:induction false} UnlistedSelects(next: seq<Item>, ids: set<string>, i: nat)
    requires i < |Unlisted(next, ids)|
    ensures Unlisted(next, ids)[i].row.id !in ids && Among(Unlisted(next, ids)[i], next)
    decreases |next|
  {
    var known := next[0].row.id in ids;
    if known || i > 0 {
      var k := if known then i else i - 1;
      UnlistedSelects(next[1..], ids, k);
      AmongRest(Unlisted(next[1..], ids)[k], next);
    }
  }

  lemma {:induction false} UnlistedIsDistinct(next: seq<Item>, ids: set<string>)
    requires Distinct(next)
    ensures Distinct(Unlisted(next, ids))
    decreases |next|
  {
    if next != [] {
      UnlistedIsDistinct(next[1..], ids);
      var v := Unlisted(next[1..], ids);
      forall i | 0 <= i < |v|
        ensures v[i].row.id != next[0].row.id
      {
        UnlistedSelects(next[1..], ids, i);
        NotAmong(next, v[i]);
      }
    }
  }

  lemma NotAmong(items: seq<Item>, item: Item)
    requires Distinct(items) && items != [] && Among(item, items[1..])
    ensures item.row.id != items[0].row.id
  {
    var j :| 0 <= j < |items[1..]| && items[1..][j] == item;
    assert items[j + 1] == item;
  }

  lemma AppendUniqueKeeps(current: seq<Item>, next: seq<Item>)
    requires Distinct(current) && Distinct(next)
    ensures Distinct(AppendUnique(current, next)) && current <= AppendUnique(current, next)
  {
    var u := Unlisted(next, Ids(current));
    UnlistedIsDistinct(next, Ids(current));
    forall i, j | 0 <= i < |current| && 0 <= j < |u|
      ensures current[i].row.id != u[j].row.id
    {
      IdsExactly(current, current[i].row.id);
      UnlistedSelects(next, Ids(current), j);
    }
  }

  lemma AppendUniqueBelongs(current: seq<Item>, next: seq<Item>, generation: nat, who: Session)
    requires AllBelong(current, generation, who) && AllBelong(next, generation, who)
    ensures AllBelong(AppendUnique(current, next), generation, who)
  {
    var u := Unlisted(next, Ids(current));
    forall i | 0 <= i < |u|
      ensures Belongs(u[i], generation, who)
    {
      UnlistedSelects(next, Ids(current), i);
    }
  }

  lemma WithoutBelongs(items: seq<Item>, parent: string, generation: nat, who: Session)
    requires AllBelong(items, generation, who)
    ensures AllBelong(Without(items, parent), generation, who)
  {
    var w := Without(items, parent);
    forall i | 0 <= i < |w|
      ensures Belongs(w[i], generation, who)
    {
      WithoutSelects(items, parent, i);
    }
  }

  /** Distinct rows are not lost: whatever is not taken over from the page is in it already. */
  lemma {:induction false} UnlistedCount(next: seq<Item>, ids: set<string>)
    requires Distinct(next)
    ensures |Unlisted(next, ids)| + |ids| >= |next|
    decreases |next|
  {
    if next != [] {
      var id := next[0].row.id;
      if id in ids {
        UnlistedCount(next[1..], ids - {id});
        SameUnlisted(next[1..], ids, id);
      } else {
        UnlistedCount(next[1..], ids);
      }
    }
  }

  lemma {:induction false} SameUnlisted(next: seq<Item>, ids: set<string>, id: string)
    requires forall i :: 0 <= i < |next| ==> next[i].row.id != id
    ensures Unlisted(next, ids - {id}) == Unlisted(next, ids)
    decreases |next|
  {
    if next != [] {
      SameUnlisted(next[1..], ids, id);
    }
  }

  lemma {:induction false} IdsCount(items: seq<Item>)
    ensures |Ids(items)| <= |items|
    decreases |items|
  {
    if items != [] {
      IdsCount(items[1..]);
      var rest := Ids(items[1..]);
      assert items[0].row.id !in rest ==> |{items[0].row.id} + rest| == |rest| + 1;
      assert items[0].row.id in rest ==> {items[0].row.id} + rest == rest;
    }
  }

  /** A merge is at least as long as either list. */
  lemma MergeIsNoShorter(next: seq<Item>, current: seq<Item>)
    requires Distinct(current)
    ensures |Merge(next, current)| >= |current| && |Merge(next, current)| >= |next|
  {
    UnlistedCount(current, Ids(next));
    IdsCount(next);
  }

  lemma {:induction false} WithoutSelects(items: seq<Item>, parent: string, i: nat)
    requires i < |Without(items, parent)|
    ensures Without(items, parent)[i].row.parent != parent && Among(Without(items, parent)[i], items)
    decreases |items|
  {
    var gone := items[0].row.parent == parent;
    if gone || i > 0 {
      var k := if gone then i else i - 1;
      WithoutSelects(items[1..], parent, k);
      AmongRest(Without(items[1..], parent)[k], items);
    }
  }

  lemma {:induction false} WithoutIsDistinct(items: seq<Item>, parent: string)
    requires Distinct(items)
    ensures Distinct(Without(items, parent))
    decreases |items|
  {
    if items != [] {
      WithoutIsDistinct(items[1..], parent);
      var v := Without(items[1..], parent);
      forall i | 0 <= i < |v|
        ensures v[i].row.id != items[0].row.id
      {
        WithoutSelects(items[1..], parent, i);
        NotAmong(items, v[i]);
      }
    }
  }

  // ---------------------------------------------------------------- landing keeps lists in order

  lemma LandedIsDistinct(slice: Slice, r: Request, answer: Answer)
    requires Distinct(slice.items) && Sensible(r, answer)
    ensures Distinct(Landed(slice, r, answer).items)
  {
    if answer.Page? {
      var page := Listed(r, answer.rows);
      assert Distinct(page);
      match r.action
      case Refresh(_) => AppendUniqueKeeps(page, slice.items);
      case More(_) => AppendUniqueKeeps(slice.items, page);
      case Queue => AppendUniqueKeeps(page, slice.items);
      case Evaluate => AppendUniqueKeeps(page, slice.items);
      case Delete(parent) => WithoutIsDistinct(slice.items, parent);
      case _ =>
    }
  }

  /** A request of this generation brings rows of this generation. */
  lemma LandedBelongs(slice: Slice, r: Request, answer: Answer, who: Session)
    requires AllBelong(slice.items, r.generation, who) && r.owner == who
    ensures AllBelong(Landed(slice, r, answer).items, r.generation, who)
  {
    if answer.Page? {
      var page := Listed(r, answer.rows);
      assert AllBelong(page, r.generation, who);
      match r.action
      case Refresh(_) => AppendUniqueBelongs(page, slice.items, r.generation, who);
      case More(_) => AppendUniqueBelongs(slice.items, page, r.generation, who);
      case Queue => AppendUniqueBelongs(page, slice.items, r.generation, who);
      case Evaluate => AppendUniqueBelongs(page, slice.items, r.generation, who);
      case Delete(parent) => WithoutBelongs(slice.items, parent, r.generation, who);
      case _ =>
    }
  }

  /** A quiet refresh of a list with distinct ids never makes it shorter, nor forgets where it had got to. */
  lemma QuietRefreshNeverShrinks(slice: Slice, r: Request, answer: Answer)
    requires Distinct(slice.items) && r.action == Refresh(true)
    ensures var after := Landed(slice, r, answer);
      && |after.items| >= |slice.items|
      && (after.cursor == slice.cursor || |slice.items| <= |after.items| == |answer.rows|)
  {
    if answer.Page? && |slice.items| > |answer.rows| {
      MergeIsNoShorter(Listed(r, answer.rows), slice.items);
    }
  }

  // ---------------------------------------------------------------- every step

  /** The state an answer lands in, without its request. */
  function Arrived(s: State, i: nat): State
    requires i < |s.inFlight|
  {
    s.(inFlight := s.inFlight[..i] + s.inFlight[i + 1..])
  }

  lemma StepKeepsDistinct(s: State, t: Step)
    requires ListsAreDistinct(s) && Enabled(s, t)
    ensures ListsAreDistinct(Next(s, t))
  {
    if t.Land? {
      var r := s.inFlight[t.index];
      LandedIsDistinct(SliceOf(s, r.kind), r, t.answer);
    }
    forall k
      ensures Distinct(SliceOf(Next(s, t), k).items)
    {
      assert Distinct(SliceOf(s, k).items);
    }
  }

  lemma LandKeepsTimely(s: State, t: Step)
    requires RequestsAreOwned(s) && Enabled(s, t) && t.Land?
    ensures RequestsAreOwned(Next(s, t))
  {
    var who, i := Identity(s.session), t.index;
    var r, rest := s.inFlight[i], Arrived(s, i);
    assert AllTimely(rest.inFlight, s.generation, who);
    assert Timely(r, s.generation, who);
    var landed := WithSlice(rest, r.kind, Landed(SliceOf(rest, r.kind), r, t.answer));
    assert landed.inFlight == rest.inFlight;
    if !Guarded(r.action) || r.generation == s.generation {
      FollowUpIsTimely(landed, r, t.answer);
    }
  }

  lemma FollowUpIsTimely(s: State, r: Request, answer: Answer)
    requires RequestsAreOwned(s) && r.generation <= s.generation
    ensures RequestsAreOwned(FollowUp(s, r, answer))
  {
  }

  /** Taking out a request leaves every other one that is being waited for. */
  lemma StillAwaited(s: State, i: nat, k: Kind, more: seq<Request>)
    requires i < |s.inFlight| && Awaited(s.inFlight, k, s.generation)
    requires !(s.inFlight[i].kind == k && s.inFlight[i].action.More? && s.inFlight[i].generation == s.generation)
    ensures Awaited(Arrived(s, i).inFlight + more, k, s.generation)
  {
    var j :| 0 <= j < |s.inFlight| && s.inFlight[j].kind == k && s.inFlight[j].action.More?
        && s.inFlight[j].generation == s.generation;
    var after := Arrived(s, i).inFlight + more;
    assert after[if j < i then j else j - 1] == s.inFlight[j];
  }

  lemma IssuedIsAwaited(s: State, k: Kind, r: Request)
    requires Awaited(s.inFlight, k, s.generation)
    ensures Awaited(s.inFlight + [r], k, s.generation)
  {
    var j :| 0 <= j < |s.inFlight| && s.inFlight[j].kind == k && s.inFlight[j].action.More?
        && s.inFlight[j].generation == s.generation;
    assert (s.inFlight + [r])[j] == s.inFlight[j];
  }

  lemma LandKeepsFlags(s: State, t: Step)
    requires FlagsAreTrue(s) && Enabled(s, t) && t.Land?
    ensures FlagsAreTrue(Next(s, t))
  {
    var r, after := s.inFlight[t.index], Next(s, t);
    var rest := Arrived(s, t.index).inFlight;
    forall k | SliceOf(after, k).loadingMore
      ensures Awaited(after.inFlight, k, after.generation)
    {
      assert SliceOf(s, k).loadingMore;
      var more := after.inFlight[|rest|..];
      assert after.inFlight == rest + more;
      StillAwaited(s, t.index, k, more);
    }
  }

  lemma BeginKeepsFlags(s: State, t: Step)
    requires FlagsAreTrue(s) && Enabled(s, t) && t.Begin?
    ensures FlagsAreTrue(Next(s, t))
  {
    var after := Next(s, t);
    forall k | SliceOf(after, k).loadingMore
      ensures Awaited(after.inFlight, k, after.generation)
    {
      if after != s {
        var r := after.inFlight[|s.inFlight|];
        assert after.inFlight == s.inFlight + [r];
        if SliceOf(s, k).loadingMore {
          IssuedIsAwaited(s, k, r);
        }
      }
    }
  }

  lemma StepKeepsFlags(s: State, t: Step)
    requires FlagsAreTrue(s) && Enabled(s, t)
    ensures FlagsAreTrue(Next(s, t))
  {
    match t
    case Land(_, _) => LandKeepsFlags(s, t);
    case Begin(_, _) => BeginKeepsFlags(s, t);
    case _ =>
  }

  /**
   * An action that skips the guard does no harm if its request is of this generation, or if it brings no row:
   * a deletion only takes rows away, an evaluation may raise no event, an updated job may not be listed.
   */
  predicate Harmless(s: State, t: Step) {
    t.Land? && t.index < |s.inFlight| ==>
      var r := s.inFlight[t.index];
      r.generation == s.generation || ShowsNothing(SliceOf(s, r.kind).items, r, t.answer)
  }

  predicate ShowsNothing(items: seq<Item>, r: Request, answer: Answer) {
    answer.Page? ==>
      match r.action
      case Evaluate => answer.rows == []
      case Update(_) => answer.rows == [] || !HasId(items, answer.rows[0].id)
      case _ => true
  }

  predicate HasId(items: seq<Item>, id: string) {
    exists i :: 0 <= i < |items| && items[i].row.id == id
  }

  /** What an unguarded action of an earlier generation does to rows of this one. */
  lemma LateLanding(slice: Slice, r: Request, answer: Answer, generation: nat, who: Session)
    requires AllBelong(slice.items, generation, who) && r.generation < generation && !Guarded(r.action)
        && Sensible(r, answer)
    ensures AllBelong(Landed(slice, r, answer).items, generation, who) <==> ShowsNothing(slice.items, r, answer)
  {
    if answer.Page? {
      var page := Listed(r, answer.rows);
      match r.action
      case Delete(parent) => WithoutBelongs(slice.items, parent, generation, who);
      case Evaluate =>
        if answer.rows != [] {
          assert !Belongs(Merge(page, slice.items)[0], generation, who);
        } else {
          AppendUniqueBelongs(page, slice.items, generation, who);
        }
      case Update(_) =>
        if i :| 0 <= i < |slice.items| && slice.items[i].row.id == answer.rows[0].id {
          assert !Belongs(Upsert(slice.items, page[0])[i], generation, who);
        }
    }
  }

  lemma LandKeepsRowsExactly(s: State, t: Step)
    requires Owned(s) && Enabled(s, t) && t.Land?
    ensures RowsAreOwned(Next(s, t)) <==> Harmless(s, t)
  {
    var r := s.inFlight[t.index];
    var slice, who := SliceOf(s, r.kind), Identity(s.session);
    assert AllBelong(slice.items, s.generation, who);
    assert Timely(r, s.generation, who);
    if r.generation == s.generation {
      LandedBelongs(slice, r, t.answer, who);
    } else if !Guarded(r.action) {
      LateLanding(slice, r, t.answer, s.generation, who);
    }
    OtherSlices(s, t);
  }

  /** A landing answer concerns one list only, and neither the generation nor the session. */
  lemma OtherSlices(s: State, t: Step)
    requires Enabled(s, t) && t.Land?
    ensures var r, after := s.inFlight[t.index], Next(s, t);
      && after.generation == s.generation && after.session == s.session
      && (forall k :: k != r.kind ==> SliceOf(after, k) == SliceOf(s, k))
      && SliceOf(after, r.kind) == if Guarded(r.action) && r.generation != s.generation then SliceOf(s, r.kind)
                                   else Landed(SliceOf(s, r.kind), r, t.answer)
  {
  }

  /** Nothing is listed, and nothing asked for in this generation is still to come. */
  predicate Quiet(s: State) {
    && (forall k :: SliceOf(s, k).items == [])
    && (forall i :: 0 <= i < |s.inFlight| ==> s.inFlight[i].generation != s.generation)
  }

  /**
   * A sign-out does no harm when it settles, unless somebody has signed in since and has something on show or
   * under way.
   */
  predicate SettlesQuietly(s: State, t: Step) {
    t.SignedOut? && Identity(s.session) != NOBODY ==> Quiet(s)
  }

  lemma SignedOutExactly(s: State)
    requires Owned(s) && s.logouts > 0
    ensures Owned(Next(s, SignedOut)) <==> SettlesQuietly(s, SignedOut)
  {
    var after, who := Next(s, SignedOut), Identity(s.session);
    if who != NOBODY && !Quiet(s) {
      if i :| 0 <= i < |s.inFlight| && s.inFlight[i].generation == s.generation {
        assert Timely(s.inFlight[i], s.generation, who);
        assert !Timely(after.inFlight[i], after.generation, NOBODY);
      } else {
        var k :| SliceOf(s, k).items != [];
        assert Belongs(SliceOf(s, k).items[0], s.generation, who);
        assert !Belongs(SliceOf(after, k).items[0], after.generation, NOBODY);
        assert !AllBelong(SliceOf(after, k).items, after.generation, NOBODY);
      }
    }
    if who == NOBODY {
      assert forall k :: AllBelong(SliceOf(s, k).items, s.generation, NOBODY);
      assert forall k :: SliceOf(after, k) == SliceOf(s, k);
    }
  }

  /** Requests and session changes never do harm. */
  lemma OthersKeepOwned(s: State, t: Step)
    requires Owned(s) && Enabled(s, t) && !t.Land? && !t.SignedOut?
    ensures Owned(Next(s, t))
  {
    var after := Next(s, t);
    forall k
      ensures AllBelong(SliceOf(after, k).items, after.generation, Identity(after.session))
    {
      assert AllBelong(SliceOf(s, k).items, s.generation, Identity(s.session));
    }
    forall i | 0 <= i < |s.inFlight|
      ensures Timely(s.inFlight[i], after.generation, Identity(after.session))
    {
      assert Timely(s.inFlight[i], s.generation, Identity(s.session));
    }
  }

  /**
   * Every step keeps everything owned by who is signed in, but for exactly two kinds: a late answer that no
   * guard holds back and that has a row to show, and a late sign-out that settles on somebody's rows or requests.
   */
  lemma StepKeepsOwnedExactly(s: State, t: Step)
    requires Owned(s) && Enabled(s, t)
    ensures Owned(Next(s, t)) <==> Harmless(s, t) && SettlesQuietly(s, t)
  {
    if t.Land? {
      LandKeepsRowsExactly(s, t);
      LandKeepsTimely(s, t);
    } else if t.SignedOut? {
      SignedOutExactly(s);
    } else {
      OthersKeepOwned(s, t);
    }
  }

  // ---------------------------------------------------------------- generations alone

  lemma AppendUniqueDated(current: seq<Item>, next: seq<Item>, generation: nat)
    requires AllDated(current, generation) && AllDated(next, generation)
    ensures AllDated(AppendUnique(current, next), generation)
  {
    var u := Unlisted(next, Ids(current));
    forall i | 0 <= i < |u|
      ensures u[i].generation == generation
    {
      UnlistedSelects(next, Ids(current), i);
    }
  }

  lemma WithoutDated(items: seq<Item>, parent: string, generation: nat)
    requires AllDated(items, generation)
    ensures AllDated(Without(items, parent), generation)
  {
    var w := Without(items, parent);
    forall i | 0 <= i < |w|
      ensures w[i].generation == generation
    {
      WithoutSelects(items, parent, i);
    }
  }

  /** Rows of this generation come from its requests, or from none when the request is older and does no harm. */
  lemma LandedDated(slice: Slice, r: Request, answer: Answer, generation: nat)
    requires AllDated(slice.items, generation) && Sensible(r, answer)
    requires r.generation == generation || (!Guarded(r.action) && ShowsNothing(slice.items, r, answer))
    ensures AllDated(Landed(slice, r, answer).items, generation)
  {
    if answer.Page? {
      var page := Listed(r, answer.rows);
      match r.action
      case Refresh(_) => AppendUniqueDated(page, slice.items, generation);
      case More(_) => AppendUniqueDated(slice.items, page, generation);
      case Queue => AppendUniqueDated(page, slice.items, generation);
      case Evaluate => AppendUniqueDated(page, slice.items, generation);
      case Delete(parent) => WithoutDated(slice.items, parent, generation);
      case _ =>
    }
  }

  lemma StepKeepsDated(s: State, t: Step)
    requires Dated(s) && Enabled(s, t) && Harmless(s, t)
    ensures Dated(Next(s, t))
  {
    var after := Next(s, t);
    if t.Land? {
      var r := s.inFlight[t.index];
      OtherSlices(s, t);
      if !Guarded(r.action) || r.generation == s.generation {
        LandedDated(SliceOf(s, r.kind), r, t.answer, s.generation);
      }
    }
    forall k
      ensures AllDated(SliceOf(after, k).items, after.generation)
    {
      assert AllDated(SliceOf(s, k).items, s.generation);
    }
  }

  /** Whoever signs in where nobody was starts with nothing. */
  lemma ArrivalIsOwned(s: State, t: Step)
    requires Dated(s) && Enabled(s, t) && Identity(s.session) == NOBODY && Identity(Next(s, t).session) != NOBODY
    ensures Owned(Next(s, t))
  {
  }

  // ---------------------------------------------------------------- every run

  ghost predicate Tidy(s: State) {
    ListsAreDistinct(s) && FlagsAreTrue(s)
  }

  ghost predicate Run(steps: seq<Step>) {
    Runs.Valid(Enabled, Next, INITIAL, steps)
  }

  ghost function StateAfter(steps: seq<Step>, n: nat): State
    requires n <= |steps|
  {
    Runs.At(Next, INITIAL, steps, n)
  }

  /**
   * Whatever the interleaving of loads, actions and session changes: ids stay distinct, and a loading-more
   * flag is set only while a request of the current generation is in flight.
   */
  lemma AlwaysTidy(steps: seq<Step>, n: nat)
    requires Run(steps) && n <= |steps|
    ensures Tidy(StateAfter(steps, n))
  {
    forall s, t | Tidy(s) && Enabled(s, t)
      ensures Tidy(Next(s, t))
    {
      StepKeepsDistinct(s, t);
      StepKeepsFlags(s, t);
    }
    Runs.Invariant(Enabled, Next, Tidy, INITIAL, steps, n);
  }

  /**
   * In a run everything listed or asked for is owned by who is signed in at every moment if and only if no
   * step of it is one of the two harmful kinds.
   */
  lemma AlwaysOwnedExactly(steps: seq<Step>)
    requires Run(steps)
    ensures (forall n :: 0 <= n <= |steps| ==> Owned(StateAfter(steps, n)))
       <==> (forall i :: 0 <= i < |steps| ==>
               Harmless(StateAfter(steps, i), steps[i]) && SettlesQuietly(StateAfter(steps, i), steps[i]))
  {
    if forall n :: 0 <= n <= |steps| ==> Owned(StateAfter(steps, n)) {
      forall i | 0 <= i < |steps|
        ensures Harmless(StateAfter(steps, i), steps[i]) && SettlesQuietly(StateAfter(steps, i), steps[i])
      {
        Runs.StepAt(Enabled, Next, INITIAL, steps, i);
        assert Owned(StateAfter(steps, i)) && Owned(StateAfter(steps, i + 1));
        StepKeepsOwnedExactly(StateAfter(steps, i), steps[i]);
      }
    }
    if forall i :: 0 <= i < |steps| ==>
         Harmless(StateAfter(steps, i), steps[i]) && SettlesQuietly(StateAfter(steps, i), steps[i]) {
      forall n | 0 <= n <= |steps|
        ensures Owned(StateAfter(steps, n))
      {
        OwnedWhileHarmless(steps, n);
      }
    }
  }

  lemma OwnedWhileHarmless(steps: seq<Step>, n: nat)
    requires Run(steps) && n <= |steps|
    requires forall i :: 0 <= i < n ==>
      Harmless(StateAfter(steps, i), steps[i]) && SettlesQuietly(StateAfter(steps, i), steps[i])
    ensures Owned(StateAfter(steps, n))
  {
    var quiet := (s, t) => Harmless(s, t) && SettlesQuietly(s, t);
    forall s, t | Owned(s) && Enabled(s, t) && quiet(s, t)
      ensures Owned(Next(s, t)) && Enabled(s, t)
    {
      StepKeepsOwnedExactly(s, t);
    }
    Runs.WhileQuiet(Enabled, Next, Owned, quiet, Enabled, INITIAL, steps, n);
  }

  /** The store is dated, and owned while anybody is signed in. */
  predicate Attended(s: State) {
    Dated(s) && (Identity(s.session) != NOBODY ==> Owned(s))
  }

  lemma StepKeepsAttended(s: State, t: Step)
    requires Attended(s) && Enabled(s, t) && Harmless(s, t)
    ensures Attended(Next(s, t))
  {
    StepKeepsDated(s, t);
    if Identity(Next(s, t).session) != NOBODY {
      if Identity(s.session) == NOBODY {
        ArrivalIsOwned(s, t);
      } else {
        StepKeepsOwnedExactly(s, t);
      }
    }
  }

  /**
   * Sign-outs may settle as late as they like: as long as no unguarded answer does harm, every row is of the
   * current generation, and whoever is signed in sees only rows asked for by that very user and workspace.
   */
  lemma SignedInSeeTheirOwn(steps: seq<Step>, n: nat)
    requires Run(steps) && n <= |steps|
    requires forall i :: 0 <= i < n ==> Harmless(StateAfter(steps, i), steps[i])
    ensures Attended(StateAfter(steps, n))
  {
    forall s, t | Attended(s) && Enabled(s, t) && Harmless(s, t)
      ensures Attended(Next(s, t)) && Enabled(s, t)
    {
      StepKeepsAttended(s, t);
    }
    Runs.WhileQuiet(Enabled, Next, Attended, Harmless, Enabled, INITIAL, steps, n);
  }

  /** A session that starts shows nothing of what came before it. */
  lemma SessionChangeClears(s: State, session: Option<Session>)
    requires Identity(session) != Identity(s.session)
    ensures var after := Next(s, SetAuthSession(session));
      && after.generation > s.generation
      && forall k :: SliceOf(after, k) == EMPTY_SLICE
  {
  }

  // ---------------------------------------------------------------- where the guard is missing

  const ALICE := Session("alice", "home")
  const BOB := Session("bob", "home")

  /** An evaluation that outlives its session puts its event into the next one's list. */
  lemma LateEvaluationLeaks()
    ensures var steps := [SetAuthSession(Some(ALICE)), Begin(AlertEvents, Evaluate), SetAuthSession(Some(BOB)),
                          Land(0, Page([Row("event", "rule", "")], ""))];
      && Run(steps)
      && StateAfter(steps, 4).session == Some(BOB)
      && StateAfter(steps, 4).alerts.items == [Item(Row("event", "rule", ""), 1, ALICE)]
  {
    var steps := [SetAuthSession(Some(ALICE)), Begin(AlertEvents, Evaluate), SetAuthSession(Some(BOB)),
                  Land(0, Page([Row("event", "rule", "")], ""))];
    var s1 := Next(INITIAL, steps[0]);
    var s2 := Next(s1, steps[1]);
    var s3 := Next(s2, steps[2]);
    Runs.First(Enabled, Next, s3, steps[3..]);
    Runs.First(Enabled, Next, s2, steps[2..]);
    Runs.First(Enabled, Next, s1, steps[1..]);
    Runs.First(Enabled, Next, INITIAL, steps);
  }

  /** A sign-out that settles after the next sign-in leaves that session's rows on show with nobody signed in. */
  lemma LateSignOutStrands()
    ensures var steps := [SignOut, SetAuthSession(Some(BOB)), Begin(AlertEvents, Refresh(false)),
                          Land(0, Page([Row("event", "rule", "")], "")), SignedOut];
      && Run(steps)
      && StateAfter(steps, 5).session == None
      && StateAfter(steps, 5).alerts.items == [Item(Row("event", "rule", ""), 2, BOB)]
  {
    var steps := [SignOut, SetAuthSession(Some(BOB)), Begin(AlertEvents, Refresh(false)),
                  Land(0, Page([Row("event", "rule", "")], "")), SignedOut];
    var s1 := Next(INITIAL, steps[0]);
    var s2 := Next(s1, steps[1]);
    var s3 := Next(s2, steps[2]);
    var s4 := Next(s3, steps[3]);
    Runs.First(Enabled, Next, s4, steps[4..]);
    Runs.First(Enabled, Next, s3, steps[3..]);
    Runs.First(Enabled, Next, s2, steps[2..]);
    Runs.First(Enabled, Next, s1, steps[1..]);
    Runs.First(Enabled, Next, INITIAL, steps);
  }
}
