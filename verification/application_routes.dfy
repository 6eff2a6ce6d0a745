/** The state-changing routes of backend/src/routes/application.ts over the
    application collection, and the lookup by id. Every route is scoped to
    the caller: a record owned by another account answers exactly as a
    missing one does. */
module ApplicationRoutes {
  import opened Wrappers
  import opened ErrorHandler
  import opened Validation
  import opened JobApplication
  import opened ApplicationQueries

  const NotFoundMessage: string := "Application not found"
  const DeletedMessage: string := "Application deleted successfully"

  /** `createError('Application not found', 404)`. */
  function NotFound(): (e: AppError)
    ensures forall development :: Classify(e, development).status == 404 &&
                                  Classify(e, development).error.message == NotFoundMessage
  {
    OperationalErrorPassesThrough(NotFoundMessage, 404, false);
    OperationalErrorPassesThrough(NotFoundMessage, 404, true);
    CreateError(NotFoundMessage, 404)
  }

  /** The record `id` when the caller owns it: the filter
      `{ _id: id, userId: caller }`. */
  predicate Owns(table: Table, id: nat, caller: nat) {
    id in table && table[id].userId == caller
  }

  class ApplicationStore {
    /** The collection, keyed by record id. */
    var table: Table
    /** The id the next created record receives. */
    var nextId: nat

    ghost predicate Valid()
      reads this
    {
      && WellKeyed(table, nextId)
      && (forall k :: k in table ==> ValidApplication(table[k]))
    }

    constructor()
      ensures Valid()
      ensures table == map[] && nextId == 0
    {
      table := map[];
      nextId := 0;
    }

    /** GET /applications/:id. */
    function Get(id: nat, caller: nat): (r: Settled<(int, Application)>)
      reads this
      ensures r.Resolved? <==> Owns(table, id, caller)
      ensures r.Resolved? ==> r.value == (200, table[id])
      ensures r.Rejected? ==> r.error == NotFound()
    {
      if Owns(table, id, caller) then Resolved((200, table[id])) else Settled.Rejected(NotFound())
    }

    /** POST /applications: the body with `userId` forced to the caller is
      validated and saved under a fresh id; 201 with the saved record, or
      the validation error and nothing stored. */
    method Create(caller: nat, b: ApplicationBody, now: nat) returns (r: Settled<(int, Application)>)
      requires Valid()
      modifies this
      ensures Valid()
      ensures r.Resolved? <==> CreateAcceptable(b)
      ensures r.Resolved? ==>
                && r.value.0 == 201
                && r.value.1 == Build(b, caller, old(nextId), now).value
                && r.value.1.userId == caller
                && old(nextId) !in old(table)
                && table == old(table)[old(nextId) := r.value.1]
                && nextId == old(nextId) + 1
      ensures r.Rejected? ==>
                && r.error == ValidationFailure(CreateViolations(b))
                && table == old(table) && nextId == old(nextId)
    {
      var built := Build(b, caller, nextId, now);
      if built.Err? {
        r := Settled.Rejected(ValidationFailure(built.error));
      } else {
        table := table[nextId := built.value];
        nextId := nextId + 1;
        r := Resolved((201, built.value));
      }
    }

    /** PUT /applications/:id: the update validators run on the body first
      (400 when they fail, whether or not the record exists); then the
      caller's record, if any, receives the body's paths, keeping its owner.
      Another account's record and a missing one both answer 404 and stay
      as they were. */
    method Update(id: nat, caller: nat, b: ApplicationBody, now: nat) returns (r: Settled<(int, Application)>)
      requires Valid()
      modifies this
      ensures Valid()
      ensures nextId == old(nextId)
      ensures !PatchAcceptable(b) ==>
                r == Settled.Rejected(ValidationFailure(PatchViolations(b))) && table == old(table)
      ensures PatchAcceptable(b) && !Owns(old(table), id, caller) ==>
                r == Settled.Rejected(NotFound()) && table == old(table)
      ensures PatchAcceptable(b) && Owns(old(table), id, caller) ==>
                && r.Resolved? && r.value.0 == 200
                && r.value.1 == ApplyPatch(old(table)[id], b, now).value
                && r.value.1.userId == caller
                && table == old(table)[id := r.value.1]
    {
      if !PatchAcceptable(b) {
        r := Settled.Rejected(ValidationFailure(PatchViolations(b)));
      } else if !Owns(table, id, caller) {
        r := Settled.Rejected(NotFound());
      } else {
        var updated := ApplyPatch(table[id], b, now).value;
        table := table[id := updated];
        r := Resolved((200, updated));
      }
    }

    /** DELETE /applications/:id: removes the caller's record and confirms;
      otherwise 404 and nothing changes. */
    method Delete(id: nat, caller: nat) returns (r: Settled<(int, string)>)
      requires Valid()
      modifies this
      ensures Valid()
      ensures nextId == old(nextId)
      ensures r.Resolved? <==> Owns(old(table), id, caller)
      ensures r.Resolved? ==> r.value == (200, DeletedMessage) && table == old(table) - {id}
      ensures r.Rejected? ==> r.error == NotFound() && table == old(table)
    {
      if Owns(table, id, caller) {
        table := table - {id};
        r := Resolved((200, DeletedMessage));
      } else {
        r := Settled.Rejected(NotFound());
      }
    }
  }

  /** A created record is readable by its owner and by nobody else. */
  method CreateThenGet(store: ApplicationStore, caller: nat, other: nat, b: ApplicationBody, now: nat)
    returns (created: Settled<(int, Application)>)
    requires store.Valid() && other != caller
    modifies store
    ensures store.Valid()
    ensures created.Resolved? ==>
              && store.Get(created.value.1.id, caller) == Resolved((200, created.value.1))
              && store.Get(created.value.1.id, other) == Settled.Rejected(NotFound())
  {
    created := store.Create(caller, b, now);
  }

  /** Deleting is final: deleting the same record again answers 404. */
  method DeleteTwice(store: ApplicationStore, id: nat, caller: nat)
    returns (first: Settled<(int, string)>, second: Settled<(int, string)>)
    requires store.Valid()
    modifies store
    ensures store.Valid()
    ensures second == Settled.Rejected(NotFound())
    ensures first.Resolved? <==> Owns(old(store.table), id, caller)
  {
    first := store.Delete(id, caller);
    second := store.Delete(id, caller);
  }

  /** An update never moves a record out of its owner's scope: after any
      successful update the caller still owns the record and the listing
      counts are unchanged. */
  method UpdateKeepsScope(store: ApplicationStore, id: nat, caller: nat, b: ApplicationBody, now: nat)
    returns (r: Settled<(int, Application)>)
    requires store.Valid()
    modifies store
    ensures store.Valid()
    ensures Owns(old(store.table), id, caller) ==> Owns(store.table, id, caller)
    ensures forall who :: |MatchingIds(store.table, who, None)| == |MatchingIds(old(store.table), who, None)|
  {
    ghost var before := store.table;
    r := store.Update(id, caller, b, now);
    forall who ensures MatchingIds(store.table, who, None) == MatchingIds(before, who, None) {
    }
  }
}
