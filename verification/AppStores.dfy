/** The store object: each action's synchronous start, and what its continuation does once an answer is there. */
module AppStores {
  import opened Options
  import opened DashboardStore

  class AppStore {
    var userDataGeneration: nat
    var session: Option<Session>
    var alerts: Slice
    var plans: Slice
    var exports: Slice
    ghost var inFlight: seq<Request>
    ghost var logouts: nat

    constructor ()
      ensures Contents() == INITIAL
    {
      userDataGeneration, session := 0, None;
      alerts, plans, exports := EMPTY_SLICE, EMPTY_SLICE, EMPTY_SLICE;
      inFlight, logouts := [], 0;
    }

    ghost function Contents(): State
      reads this
    {
      State(userDataGeneration, session, alerts, plans, exports, inFlight, logouts)
    }

    function SliceAt(k: Kind): Slice
      reads this
    {
      match k case AlertEvents => alerts case EntitlementEvents => plans case ExportJobs => exports
    }

    method SetSlice(k: Kind, slice: Slice)
      modifies this
      ensures Contents() == WithSlice(old(Contents()), k, slice)
    {
      match k {
        case AlertEvents => alerts := slice;
        case EntitlementEvents => plans := slice;
        case ExportJobs => exports := slice;
      }
    }

    method ResetUserDataState()
      modifies this
      ensures Contents() == Reset(old(Contents()))
    {
      userDataGeneration := userDataGeneration + 1;
      alerts, plans, exports := EMPTY_SLICE, EMPTY_SLICE, EMPTY_SLICE;
    }

    method SetSession(next: Option<Session>)
      modifies this
      ensures Contents() == Next(old(Contents()), SetAuthSession(next))
    {
      var previous := Identity(session);
      if previous.userID != Identity(next).userID || previous.workspaceID != Identity(next).workspaceID {
        ResetUserDataState();
      }
      session := next;
    }

    /** The start of `login` and `register`. */
    method Login()
      modifies this
      ensures Contents() == Next(old(Contents()), SignIn)
    {
      ResetUserDataState();
      session := None;
    }

    method Logout()
      modifies this
      ensures Contents() == Next(old(Contents()), SignOut)
    {
      ResetUserDataState();
      session := None;
      logouts := logouts + 1;
    }

    method LoggedOut()
      requires logouts > 0
      modifies this
      ensures Contents() == Next(old(Contents()), SignedOut)
    {
      session := None;
      logouts := logouts - 1;
    }

    /** Sends a request; its continuation will know the generation it was sent in. */
    method Send(k: Kind, a: Action) returns (r: Request)
      modifies this
      ensures Contents() == Issue(old(Contents()), k, a) && inFlight == old(inFlight) + [r]
    {
      r := Request(k, a, userDataGeneration, Identity(session));
      inFlight := inFlight + [r];
    }

    // -------------------------------------------------------------- loads

    method Load(k: Kind) returns (r: Request)
      modifies this
      ensures Contents() == Next(old(Contents()), Begin(k, Full)) && inFlight == old(inFlight) + [r]
    {
      if k != ExportJobs {
        SetSlice(k, SliceAt(k).(loadingMore := false));
      }
      r := Send(k, Full);
    }

    method AlertsLoaded(r: Request, ghost i: nat, answer: Answer)
      requires i < |inFlight| && inFlight[i] == r && r.kind == AlertEvents && r.action == Full && Sensible(r, answer)
      modifies this
      ensures Contents() == Next(old(Contents()), Land(i, answer))
    {
      inFlight := inFlight[..i] + inFlight[i + 1..];
      if r.generation != userDataGeneration {
        return;
      }
      if answer.Page? {
        alerts := alerts.(items := Listed(r, answer.rows), cursor := answer.next);
      }
    }

    /** The second half is sent for the generation the first half was sent in. */
    method PlansLoaded(r: Request, ghost i: nat, answer: Answer) returns (details: Option<Request>)
      requires i < |inFlight| && inFlight[i] == r && r.kind == EntitlementEvents && r.action == Full
          && Sensible(r, answer)
      modifies this
      ensures Contents() == Next(old(Contents()), Land(i, answer))
      ensures details.Some? <==> answer.Page? && r.generation == userDataGeneration
    {
      inFlight := inFlight[..i] + inFlight[i + 1..];
      if r.generation != userDataGeneration || answer.Failed? {
        return None;
      }
      var d := Send(EntitlementEvents, Details);
      return Some(d);
    }

    method PlanDetailsLoaded(r: Request, ghost i: nat, answer: Answer)
      requires i < |inFlight| && inFlight[i] == r && r.kind == EntitlementEvents && r.action == Details
          && Sensible(r, answer)
      modifies this
      ensures Contents() == Next(old(Contents()), Land(i, answer))
    {
      inFlight := inFlight[..i] + inFlight[i + 1..];
      if r.generation != userDataGeneration {
        return;
      }
      match answer {
        case Page(rows, next) => plans := plans.(items := Listed(r, rows), cursor := next);
        case Failed => plans := plans.(items := [], cursor := "");
      }
    }

    method UsageControlsLoaded(r: Request, ghost i: nat, answer: Answer)
      requires i < |inFlight| && inFlight[i] == r && r.kind == ExportJobs && r.action == Full && Sensible(r, answer)
      modifies this
      ensures Contents() == Next(old(Contents()), Land(i, answer))
    {
      inFlight := inFlight[..i] + inFlight[i + 1..];
      if r.generation != userDataGeneration {
        return;
      }
      if answer.Page? {
        exports := Slice(Listed(r, answer.rows), answer.next, false);
      }
    }

    /** `loadAlertEvents`, `loadPlanEntitlementActivity` and `loadUsageExportJobs`. */
    method Reload(k: Kind, keep: bool) returns (r: Request)
      modifies this
      ensures Contents() == Next(old(Contents()), Begin(k, Refresh(keep))) && inFlight == old(inFlight) + [r]
    {
      r := Send(k, Refresh(keep));
    }

    method Reloaded(r: Request, ghost i: nat, answer: Answer)
      requires i < |inFlight| && inFlight[i] == r && r.action.Refresh? && Sensible(r, answer)
      modifies this
      ensures Contents() == Next(old(Contents()), Land(i, answer))
    {
      inFlight := inFlight[..i] + inFlight[i + 1..];
      if r.generation != userDataGeneration || answer.Failed? {
        return;
      }
      var slice, page := SliceAt(r.kind), Listed(r, answer.rows);
      if r.action.keep && |slice.items| > |answer.rows| {
        SetSlice(r.kind, slice.(items := Merge(page, slice.items)));
      } else {
        SetSlice(r.kind, slice.(items := page, cursor := answer.next));
      }
    }

    method LoadMore(k: Kind) returns (r: Option<Request>)
      modifies this
      ensures Contents() == Next(old(Contents()), Begin(k, More("")))
      ensures r.None? <==> old(SliceAt(k)).cursor == "" || old(SliceAt(k)).loadingMore
    {
      var slice := SliceAt(k);
      if slice.cursor == "" || slice.loadingMore {
        return None;
      }
      SetSlice(k, slice.(loadingMore := true));
      var sent := Send(k, More(slice.cursor));
      return Some(sent);
    }

    method MoreLoaded(r: Request, ghost i: nat, answer: Answer)
      requires i < |inFlight| && inFlight[i] == r && r.action.More? && Sensible(r, answer)
      modifies this
      ensures Contents() == Next(old(Contents()), Land(i, answer))
    {
      inFlight := inFlight[..i] + inFlight[i + 1..];
      if r.generation != userDataGeneration {
        return;
      }
      if answer.Page? {
        var slice := SliceAt(r.kind);
        SetSlice(r.kind, slice.(items := AppendUnique(slice.items, Listed(r, answer.rows)), cursor := answer.next));
      }
      SetSlice(r.kind, SliceAt(r.kind).(loadingMore := false));
    }

    // -------------------------------------------------------------- actions

    /** Queueing, evaluating, cancelling, retrying and deleting start alike. */
    method Act(k: Kind, a: Action) returns (r: Request)
      requires Offered(k, a) && (a.Queue? || !Guarded(a))
      modifies this
      ensures Contents() == Next(old(Contents()), Begin(k, a)) && inFlight == old(inFlight) + [r]
    {
      r := Send(k, a);
    }

    method ExportQueued(r: Request, ghost i: nat, answer: Answer)
      requires i < |inFlight| && inFlight[i] == r && r.kind == ExportJobs && r.action == Queue && Sensible(r, answer)
      modifies this
      ensures Contents() == Next(old(Contents()), Land(i, answer))
    {
      inFlight := inFlight[..i] + inFlight[i + 1..];
      if r.generation != userDataGeneration || answer.Failed? {
        return;
      }
      exports := exports.(items := Merge(Listed(r, answer.rows), exports.items));
      var refresh := Reload(ExportJobs, true);
    }

    method AlertEvaluated(r: Request, ghost i: nat, answer: Answer)
      requires i < |inFlight| && inFlight[i] == r && r.kind == AlertEvents && r.action == Evaluate
          && Sensible(r, answer)
      modifies this
      ensures Contents() == Next(old(Contents()), Land(i, answer))
    {
      inFlight := inFlight[..i] + inFlight[i + 1..];
      if answer.Page? {
        alerts := alerts.(items := Merge(Listed(r, answer.rows), alerts.items));
      }
    }

    /** After `cancelUsageExport` and `retryUsageExport`. */
    method ExportUpdated(r: Request, ghost i: nat, answer: Answer)
      requires i < |inFlight| && inFlight[i] == r && r.kind == ExportJobs && r.action.Update? && Sensible(r, answer)
      modifies this
      ensures Contents() == Next(old(Contents()), Land(i, answer))
    {
      inFlight := inFlight[..i] + inFlight[i + 1..];
      if answer.Page? {
        exports := exports.(items := Upsert(exports.items, Listed(r, answer.rows)[0]));
        if r.action.retry {
          var refresh := Reload(ExportJobs, true);
        }
      }
    }

    /** After `deleteSelectedAlert` and `deleteSubjectPlanAssignment`. */
    method Deleted(r: Request, ghost i: nat, answer: Answer)
      requires i < |inFlight| && inFlight[i] == r && r.action.Delete? && Sensible(r, answer)
      modifies this
      ensures Contents() == Next(old(Contents()), Land(i, answer))
    {
      inFlight := inFlight[..i] + inFlight[i + 1..];
      if answer.Page? {
        var slice := SliceAt(r.kind);
        SetSlice(r.kind, slice.(items := Without(slice.items, r.action.parent)));
      }
    }
  }
}
