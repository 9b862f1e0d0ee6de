/** The payments store: rows with the two unique indexes of the schema, kept up to date by every
    statement. It refines the plain list of rows of `Table`. */
module Repo {
  import opened Fees
  import opened Model
  import opened Table

  class AppRepo {
    var rows: seq<Payment>
    var apps: map<string, KYCLevel>
    var byKey: map<Key, nat>      // UNIQUE (app_id, app_ref, type)
    var byRef: map<string, nat>   // UNIQUE (diarra_client_ref)

    /** Both indexes list exactly the rows, each under its own key. */
    ghost predicate Valid()
      reads this
    {
      && (forall i :: 0 <= i < |rows| ==> rows[i].id == i)
      && (forall i :: 0 <= i < |rows| ==> KeyOf(rows[i]) in byKey && byKey[KeyOf(rows[i])] == i)
      && (forall i :: 0 <= i < |rows| ==> rows[i].diarraRef in byRef && byRef[rows[i].diarraRef] == i)
      && (forall k :: k in byKey ==> byKey[k] < |rows| && KeyOf(rows[byKey[k]]) == k)
      && (forall r :: r in byRef ==> byRef[r] < |rows| && rows[byRef[r]].diarraRef == r)
    }

    constructor ()
      ensures Valid() && rows == [] && apps == map[]
    {
      rows, apps, byKey, byRef := [], map[], map[], map[];
    }

    lemma {:induction false} IndexesUnique()
      requires Valid()
      ensures Unique(rows)
    {
      forall i, j | 0 <= i < j < |rows| ensures KeyOf(rows[i]) != KeyOf(rows[j])
        && rows[i].diarraRef != rows[j].diarraRef {
        assert byKey[KeyOf(rows[i])] == i && byRef[rows[i].diarraRef] == i;
      }
    }

    // --- SELECT ---------------------------------------------------------------

    method FindPaymentByAppRefType(appId: string, appRef: string, typ: PaymentType) returns (p: Option<Payment>)
      requires Valid()
      ensures p == FindKey(rows, Key(appId, appRef, typ))
    {
      var k := Key(appId, appRef, typ);
      ghost var scan := ScanKey(rows, k, 0);
      if k in byKey {
        IndexesUnique();
        FindExact(rows, byKey[k]);
        p := Some(rows[byKey[k]]);
      } else {
        p := None;
      }
    }

    method FindPaymentByAppRef(appId: string, appRef: string) returns (p: Option<Payment>)
      requires Valid()
      ensures p == FindKey(rows, Key(appId, appRef, Deposit))
    {
      p := FindPaymentByAppRefType(appId, appRef, Deposit);
    }

    method FindPaymentByDiarraRef(ref: string) returns (p: Option<Payment>)
      requires Valid()
      ensures p == FindRef(rows, ref)
    {
      ghost var scan := ScanRef(rows, ref, 0);
      if ref in byRef {
        IndexesUnique();
        FindExact(rows, byRef[ref]);
        p := Some(rows[byRef[ref]]);
      } else {
        p := None;
      }
    }

    method FindPaymentByID(id: nat) returns (p: Option<Payment>)
      ensures p == FindId(rows, id)
    {
      p := if id < |rows| then Some(rows[id]) else None;
    }

    // --- INSERT ---------------------------------------------------------------

    /** Add a row under keys nobody has. */
    method Append(row: Payment)
      requires Valid() && row.id == |rows| && KeyOf(row) !in byKey && row.diarraRef !in byRef
      modifies this`rows, this`byKey, this`byRef
      ensures Valid() && rows == old(rows) + [row]
    {
      byKey := byKey[KeyOf(row) := |rows|];
      byRef := byRef[row.diarraRef := |rows|];
      rows := rows + [row];
    }

    /** One INSERT: the indexes decide, and list the new row. */
    method Insert(row: Payment, onConflictDoNothing: bool) returns (o: InsertOutcome)
      requires Valid()
      modifies this`rows, this`byKey, this`byRef
      ensures Valid()
      ensures o == InsertOutcomeOf(old(rows), apps.Keys, row, onConflictDoNothing)
      ensures rows == InsertInto(old(rows), o)
    {
      var sameKey := FindPaymentByAppRefType(row.appId, row.appRef, row.typ);
      var sameRef := FindPaymentByDiarraRef(row.diarraRef);
      if !Fits(row) {
        o := Refused;
      } else if sameKey.Some? {
        o := if onConflictDoNothing then Conflict else Refused;
      } else if sameRef.Some? || row.appId !in apps || (row.refundOf.Some? && |rows| <= row.refundOf.value) {
        o := Refused;
      } else {
        var added := row.(id := |rows|);
        o := Inserted(added);
        Append(added);
      }
    }

    // --- UPDATE ---------------------------------------------------------------

    /** Replace a row whose key and ref stay the same. */
    method Put(id: nat, row: Payment)
      requires Valid() && id < |rows|
      requires row.id == id && KeyOf(row) == KeyOf(rows[id]) && row.diarraRef == rows[id].diarraRef
      modifies this`rows
      ensures Valid() && rows == old(rows)[id := row]
    {
      rows := rows[id := row];
    }

    method UpdatePaymentStatus(id: nat, status: Status, provider: Option<string>, reason: Option<string>)
      requires Valid()
      modifies this`rows
      ensures Valid() && rows == UpdateStatus(old(rows), id, status, provider, reason)
    {
      if id < |rows| && AllowedStatus(status) {
        var p := rows[id];
        var provider' := if provider.Some? then provider else p.provider;
        Put(id, p.(status := status, provider := provider', failureReason := reason));
      }
    }

    method UpdatePaymentRedirect(id: nat, url: string)
      requires Valid()
      modifies this`rows
      ensures Valid() && rows == UpdateRedirect(old(rows), id, url)
    {
      if id < |rows| {
        Put(id, rows[id].(redirect := Some(url)));
      }
    }

    /** The one statement that re-keys: the ref index loses the old entry and gains the new one. */
    method UpdateDiarraRefAndRedirect(id: nat, ref: string, url: string)
      requires Valid()
      modifies this`rows, this`byRef
      ensures Valid() && rows == UpdateRefAndRedirect(old(rows), id, ref, url)
      ensures id < |old(rows)| && old(rows)[id].diarraRef != ref && rows != old(rows) ==>
              old(rows)[id].diarraRef !in byRef && ref in byRef
    {
      if id < |rows| && (ref !in byRef || byRef[ref] == id) {
        assert !RekeyClash(rows, id, ref);
        byRef := (byRef - {rows[id].diarraRef})[ref := id];
        rows := rows[id := rows[id].(diarraRef := ref, redirect := Some(url))];
      } else if id < |rows| {
        assert rows[byRef[ref]].diarraRef == ref && byRef[ref] != id;
        assert RekeyClash(rows, id, ref);
      }
    }

    method SetRelayResult(id: nat, status: RelayStatus, err: Option<string>, now: int)
      requires Valid()
      modifies this`rows
      ensures Valid() && rows == UpdateRelay(old(rows), id, status, err, now)
    {
      if id < |rows| {
        var p := rows[id];
        Put(id,
            p.(relayStatus := status, relayAttempts := p.relayAttempts + 1, relayLastError := err,
               relayLastAt := Some(now)));
      }
    }

    // --- Apps -----------------------------------------------------------------

    method Create(appId: string)
      modifies this`apps
      ensures apps == if appId in old(apps) then old(apps) else old(apps)[appId := KYCNone]
    {
      if appId !in apps {
        apps := apps[appId := KYCNone];
      }
    }

    method SetKYCLevel(appId: string, level: KYCLevel)
      modifies this`apps
      ensures apps == if appId in old(apps) then old(apps)[appId := level] else old(apps)
    {
      if appId in apps {
        apps := apps[appId := level];
      }
    }

    // --- Whole sequences of statements -------------------------------------------

    method Execute(op: Op)
      requires Valid()
      modifies this`rows, this`byKey, this`byRef
      ensures Valid() && rows == ApplyOp(old(rows), apps.Keys, op)
    {
      match op {
        case InsertOp(row, onConflict) => var o := Insert(row, onConflict);
        case StatusOp(id, status, provider, reason) => UpdatePaymentStatus(id, status, provider, reason);
        case RedirectOp(id, url) => UpdatePaymentRedirect(id, url);
        case RekeyOp(id, r, url) => UpdateDiarraRefAndRedirect(id, r, url);
        case RelayOp(id, status, err, now) => SetRelayResult(id, status, err, now);
      }
    }

    /** However statements follow one another, the store holds what the list holds; its lookups
        answer what scans of that list answer. */
    method Replay(ops: seq<Op>, k: Key, ref: string)
      returns (byKeyAnswer: Option<Payment>, byRefAnswer: Option<Payment>)
      requires Valid()
      modifies this`rows, this`byKey, this`byRef
      ensures Valid()
      ensures rows == ReplayList(old(rows), apps.Keys, ops)
      ensures byKeyAnswer == FindKey(ReplayList(old(rows), apps.Keys, ops), k)
      ensures byRefAnswer == FindRef(ReplayList(old(rows), apps.Keys, ops), ref)
    {
      var i := 0;
      while i < |ops|
        invariant 0 <= i <= |ops| && Valid()
        invariant rows == ReplayList(old(rows), apps.Keys, ops[..i])
      {
        assert ops[..i + 1][..i] == ops[..i];
        Execute(ops[i]);
        i := i + 1;
      }
      assert ops[..|ops|] == ops;
      byKeyAnswer := FindPaymentByAppRefType(k.appId, k.appRef, k.typ);
      byRefAnswer := FindPaymentByDiarraRef(ref);
    }
  }

  datatype Op =
    | InsertOp(row: Payment, onConflict: bool)
    | StatusOp(id: nat, status: Status, provider: Option<string>, reason: Option<string>)
    | RedirectOp(id: nat, url: string)
    | RekeyOp(id: nat, ref: string, url: string)
    | RelayOp(id: nat, relay: RelayStatus, err: Option<string>, now: int)

  function ApplyOp(t: Rows, apps: set<string>, op: Op): Rows
  {
    match op
    case InsertOp(row, onConflict) => InsertInto(t, InsertOutcomeOf(t, apps, row, onConflict))
    case StatusOp(id, status, provider, reason) => UpdateStatus(t, id, status, provider, reason)
    case RedirectOp(id, url) => UpdateRedirect(t, id, url)
    case RekeyOp(id, ref, url) => UpdateRefAndRedirect(t, id, ref, url)
    case RelayOp(id, relay, err, now) => UpdateRelay(t, id, relay, err, now)
  }

  function ReplayList(t: Rows, apps: set<string>, ops: seq<Op>): Rows
  {
    if |ops| == 0 then t else ApplyOp(ReplayList(t, apps, ops[..|ops| - 1]), apps, ops[|ops| - 1])
  }

  lemma {:induction false} ApplyKeepsUnique(t: Rows, apps: set<string>, op: Op)
    requires Unique(t)
    ensures Unique(ApplyOp(t, apps, op)) && |t| <= |ApplyOp(t, apps, op)|
    ensures forall i :: 0 <= i < |t| ==> KeyOf(ApplyOp(t, apps, op)[i]) == KeyOf(t[i])
  {
    match op
    case InsertOp(row, onConflict) => InsertKeepsUnique(t, apps, row, onConflict);
    case RekeyOp(id, ref, url) => if id < |t| { RekeyMovesTheRef(t, id, ref, url); }
    case _ => UpdatesKeepUnique(t, ApplyOp(t, apps, op));
  }

  /** No sequence of statements loses a row, moves it or changes its (app, ref, type); in every
      resulting list each row is found under both of its keys, and under no other. */
  lemma {:induction false} ReplayKeepsRows(t: Rows, apps: set<string>, ops: seq<Op>)
    requires Unique(t)
    ensures var t' := ReplayList(t, apps, ops);
            && Unique(t') && |t| <= |t'|
            && (forall i :: 0 <= i < |t| ==> KeyOf(t'[i]) == KeyOf(t[i]))
            && (forall i :: 0 <= i < |t'| ==>
                FindKey(t', KeyOf(t'[i])) == Some(t'[i]) && FindRef(t', t'[i].diarraRef) == Some(t'[i]))
  {
    if 0 < |ops| {
      ReplayKeepsRows(t, apps, ops[..|ops| - 1]);
      ApplyKeepsUnique(ReplayList(t, apps, ops[..|ops| - 1]), apps, ops[|ops| - 1]);
    }
    var t' := ReplayList(t, apps, ops);
    forall i | 0 <= i < |t'|
      ensures FindKey(t', KeyOf(t'[i])) == Some(t'[i]) && FindRef(t', t'[i].diarraRef) == Some(t'[i])
    {
      FindExact(t', i);
    }
  }
}
