/** The SQL statements of `internal/repository/app_repo.go` on a plain list of rows.
    A row's id is its position: no statement deletes. */
module Table {
  import opened Model

  type Rows = seq<Payment>

  // --- SELECT: linear scans -------------------------------------------------

  function ScanKey(t: Rows, k: Key, from: nat): (r: Option<nat>)
    requires from <= |t|
    ensures r.Some? ==> from <= r.value < |t| && KeyOf(t[r.value]) == k
                        && forall i :: from <= i < r.value ==> KeyOf(t[i]) != k
    ensures r.None? ==> forall i :: from <= i < |t| ==> KeyOf(t[i]) != k
    decreases |t| - from
  {
    if from == |t| then None
    else if KeyOf(t[from]) == k then Some(from)
    else ScanKey(t, k, from + 1)
  }

  function ScanRef(t: Rows, ref: string, from: nat): (r: Option<nat>)
    requires from <= |t|
    ensures r.Some? ==> from <= r.value < |t| && t[r.value].diarraRef == ref
                        && forall i :: from <= i < r.value ==> t[i].diarraRef != ref
    ensures r.None? ==> forall i :: from <= i < |t| ==> t[i].diarraRef != ref
    decreases |t| - from
  {
    if from == |t| then None
    else if t[from].diarraRef == ref then Some(from)
    else ScanRef(t, ref, from + 1)
  }

  function RowAt(t: Rows, i: Option<nat>): (r: Option<Payment>)
    requires i.Some? ==> i.value < |t|
    ensures r.Some? <==> i.Some?
    ensures i.Some? ==> r == Some(t[i.value])
  {
    if i.Some? then Some(t[i.value]) else None
  }

  function FindKey(t: Rows, k: Key): Option<Payment>
  {
    RowAt(t, ScanKey(t, k, 0))
  }

  function FindRef(t: Rows, ref: string): Option<Payment>
  {
    RowAt(t, ScanRef(t, ref, 0))
  }

  function FindId(t: Rows, id: nat): Option<Payment>
  {
    if id < |t| then Some(t[id]) else None
  }

  // --- INSERT ---------------------------------------------------------------

  datatype InsertOutcome = Inserted(row: Payment) | Conflict | Refused

  /** What one INSERT answers. The `(app_id, app_ref, type)` index is the arbiter of
      `ON CONFLICT DO NOTHING`; every other violation is an error. */
  function InsertOutcomeOf(t: Rows, apps: set<string>, row: Payment, onConflictDoNothing: bool): InsertOutcome
  {
    if !Fits(row) then Refused
    else if FindKey(t, KeyOf(row)).Some? then (if onConflictDoNothing then Conflict else Refused)
    else if FindRef(t, row.diarraRef).Some? then Refused
    else if row.appId !in apps then Refused
    else if row.refundOf.Some? && |t| <= row.refundOf.value then Refused
    else Inserted(row.(id := |t|))
  }

  function InsertInto(t: Rows, o: InsertOutcome): Rows
  {
    if o.Inserted? then t + [o.row] else t
  }

  // --- UPDATE ... WHERE id = ... --------------------------------------------

  function UpdateStatus(t: Rows, id: nat, status: Status, provider: Option<string>, reason: Option<string>): Rows
  {
    if id < |t| && AllowedStatus(status) then
      t[id := t[id].(status := status, provider := if provider.Some? then provider else t[id].provider,
                     failureReason := reason)]
    else t
  }

  function UpdateRedirect(t: Rows, id: nat, url: string): Rows
  {
    if id < |t| then t[id := t[id].(redirect := Some(url))] else t
  }

  /** Refused when another row already carries `ref`. */
  predicate RekeyClash(t: Rows, id: nat, ref: string)
  {
    exists i :: 0 <= i < |t| && i != id && t[i].diarraRef == ref
  }

  function UpdateRefAndRedirect(t: Rows, id: nat, ref: string, url: string): Rows
  {
    if id < |t| && !RekeyClash(t, id, ref) then t[id := t[id].(diarraRef := ref, redirect := Some(url))] else t
  }

  function UpdateRelay(t: Rows, id: nat, status: RelayStatus, err: Option<string>, now: int): Rows
  {
    if id < |t| then
      t[id := t[id].(relayStatus := status, relayAttempts := t[id].relayAttempts + 1,
                     relayLastError := err, relayLastAt := Some(now))]
    else t
  }

  // --- The two unique indexes -----------------------------------------------

  ghost predicate Unique(t: Rows)
  {
    && (forall i, j :: 0 <= i < j < |t| ==> KeyOf(t[i]) != KeyOf(t[j]))
    && (forall i, j :: 0 <= i < j < |t| ==> t[i].diarraRef != t[j].diarraRef)
    && (forall i :: 0 <= i < |t| ==> t[i].id == i)
  }

  /** In a table with unique indexes a lookup finds a row exactly when it is there. */
  lemma {:induction false} FindExact(t: Rows, i: nat)
    requires Unique(t) && i < |t|
    ensures FindKey(t, KeyOf(t[i])) == Some(t[i])
    ensures FindRef(t, t[i].diarraRef) == Some(t[i])
  {
    var j := ScanKey(t, KeyOf(t[i]), 0).value;
    assert KeyOf(t[j]) == KeyOf(t[i]);
    var k := ScanRef(t, t[i].diarraRef, 0).value;
    assert t[k].diarraRef == t[i].diarraRef;
  }

  /** What a lookup returns is a row of the table. */
  lemma {:induction false} FoundKey(t: Rows, k: Key)
    requires Unique(t)
    ensures FindKey(t, k).Some? ==> var p := FindKey(t, k).value; p.id < |t| && t[p.id] == p && KeyOf(p) == k
  {
  }

  lemma {:induction false} FoundRef(t: Rows, ref: string)
    requires Unique(t)
    ensures FindRef(t, ref).Some? ==> var p := FindRef(t, ref).value; p.id < |t| && t[p.id] == p && p.diarraRef == ref
  {
  }

  /** An INSERT succeeds exactly when no row clashes, the row fits and its references exist. */
  lemma {:induction false} InsertExact(t: Rows, apps: set<string>, row: Payment, onConflict: bool)
    ensures var o := InsertOutcomeOf(t, apps, row, onConflict);
            && (o.Inserted? <==>
                && Fits(row) && row.appId in apps
                && (row.refundOf.Some? ==> row.refundOf.value < |t|)
                && (forall i :: 0 <= i < |t| ==> KeyOf(t[i]) != KeyOf(row) && t[i].diarraRef != row.diarraRef))
            && (o.Conflict? <==> onConflict && Fits(row) && exists i :: 0 <= i < |t| && KeyOf(t[i]) == KeyOf(row))
  {
    var a, b := ScanKey(t, KeyOf(row), 0), ScanRef(t, row.diarraRef, 0);
    if a.Some? { assert KeyOf(t[a.value]) == KeyOf(row); }
    if b.Some? { assert t[b.value].diarraRef == row.diarraRef; }
  }

  /** Every statement keeps both indexes unique. */
  lemma {:induction false} InsertKeepsUnique(t: Rows, apps: set<string>, row: Payment, onConflict: bool)
    requires Unique(t)
    ensures Unique(InsertInto(t, InsertOutcomeOf(t, apps, row, onConflict)))
  {
    InsertExact(t, apps, row, onConflict);
    var o := InsertOutcomeOf(t, apps, row, onConflict);
    if o.Inserted? {
      assert KeyOf(o.row) == KeyOf(row);
    }
  }

  lemma {:induction false} UpdatesKeepUnique(t: Rows, t': Rows)
    requires Unique(t) && |t'| == |t|
    requires forall i :: 0 <= i < |t| ==>
             KeyOf(t'[i]) == KeyOf(t[i]) && t'[i].diarraRef == t[i].diarraRef && t'[i].id == t[i].id
    ensures Unique(t')
  {
  }

  /** A refresh frees the old ref and attaches the new one to the same row. */
  lemma {:induction false} RekeyMovesTheRef(t: Rows, id: nat, ref: string, url: string)
    requires Unique(t) && id < |t|
    ensures var t' := UpdateRefAndRedirect(t, id, ref, url);
            && Unique(t')
            && (if exists i :: 0 <= i < |t| && i != id && t[i].diarraRef == ref then t' == t
                else FindRef(t', ref) == Some(t'[id]) && t'[id] == t[id].(diarraRef := ref, redirect := Some(url)))
            && (t' != t && ref != t[id].diarraRef ==> FindRef(t', t[id].diarraRef) == None)
            && (forall k :: FindKey(t', k).Some? <==> FindKey(t, k).Some?)
  {
    var t' := UpdateRefAndRedirect(t, id, ref, url);
    if t' != t {
      FindExact(t', id);
      assert forall i :: 0 <= i < |t| && i != id ==> t'[i] == t[i];
    }
    forall k ensures FindKey(t', k).Some? <==> FindKey(t, k).Some? {
      var a, b := ScanKey(t, k, 0), ScanKey(t', k, 0);
      if a.Some? { assert KeyOf(t'[a.value]) == k; }
      if b.Some? { assert KeyOf(t[b.value]) == k; }
    }
  }
}
