/**
 * The `users` table and the profile upsert run after each sign-in. A row is
 * looked up by id; "not found" arrives as an error with code `PGRST116`,
 * which the upsert treats as absence, while any other error ends it. An
 * update sends only the fields that are defined: an absent optional field
 * leaves the stored column as it was, because undefined members are dropped
 * when the update is serialised.
 */
module UserManagement {
  import opened Wrappers
  import opened Schema

  type UserTable = map<string, UserRow>

  /** The profile the sign-in flow passes in. */
  datatype UserProfile = UserProfile(
    id: string, email: string, name: Option<string>, avatarUrl: Option<string>, provider: Option<string>)

  /** The error code with which the store reports that `.single()` found no row. */
  const NotFoundCode: string := "PGRST116"

  /** What the lookup by id returns: the row, or the code of the reported error. */
  datatype Lookup = Lookup(existing: Option<UserRow>, errorCode: Option<string>)

  /**
   * The lookup `select('*').eq('id', id).single()`: `injected` is the code of
   * an error the store reports instead of answering; otherwise a missing row
   * is reported as the not-found error.
   */
  function LookupUser(t: UserTable, id: string, injected: Option<string>): (r: Lookup)
    ensures r.existing.Some? <==> injected.None? && id in t
    ensures r.existing.Some? ==> r.existing.value == t[id] && r.errorCode.None?
  {
    if injected.Some? then Lookup(None, injected)
    else if id in t then Lookup(Some(t[id]), None)
    else Lookup(None, Some(NotFoundCode))
  }

  /** An optional field of an update: the new value when defined, the stored one otherwise. */
  function Overwrite(given: Option<string>, stored: Option<string>): (r: Option<string>)
    ensures given.Some? ==> r == given
    ensures given.None? ==> r == stored
  {
    if given.Some? then given else stored
  }

  /** The table and the result after one `createOrUpdateUserProfile` call. */
  datatype UpsertOutcome = UpsertOutcome(rows: UserTable, ok: bool)

  /**
   * `createOrUpdateUserProfile` as a transition: an error other than
   * not-found gives `false`; a found row gets the profile fields and a new
   * `updated_at`; otherwise a row is inserted, which the store refuses if
   * the id is in fact taken. `writeFault` is an error of the update or insert.
   */
  function Upsert(t: UserTable, p: UserProfile, now: Timestamp, injected: Option<string>, writeFault: bool): (o: UpsertOutcome)
  {
    var found := LookupUser(t, p.id, injected);
    if found.errorCode.Some? && found.errorCode.value != NotFoundCode then UpsertOutcome(t, false)
    else if found.existing.Some? then
      var stored := found.existing.value;
      if writeFault then UpsertOutcome(t, false)
      else
        var row := stored.(email := p.email, name := Overwrite(p.name, stored.name), avatarUrl := Overwrite(p.avatarUrl, stored.avatarUrl),
                        provider := Overwrite(p.provider, stored.provider), updatedAt := now);
        UpsertOutcome(t[p.id := row], true)
    else if writeFault || p.id in t then UpsertOutcome(t, false)
    else UpsertOutcome(t[p.id := UserRow(p.id, p.email, p.name, p.avatarUrl, p.provider, now, now)], true)
  }

  /** A lookup error other than not-found returns `false` and writes nothing. */
  lemma UpsertLookupError(t: UserTable, p: UserProfile, now: Timestamp, code: string, writeFault: bool)
    requires code != NotFoundCode
    ensures Upsert(t, p, now, Some(code), writeFault) == UpsertOutcome(t, false)
  {
  }

  /**
   * For a stored row, a successful call updates email, name, avatar,
   * provider and timestamp only: a defined optional field is written, an
   * absent one keeps the stored column, the creation time stays and no row
   * is added.
   */
  lemma UpsertUpdatesExisting(t: UserTable, p: UserProfile, now: Timestamp)
    requires p.id in t
    ensures var o := Upsert(t, p, now, None, false);
      && o.ok && o.rows.Keys == t.Keys
      && o.rows[p.id].createdAt == t[p.id].createdAt && o.rows[p.id].id == t[p.id].id
      && o.rows[p.id].email == p.email && o.rows[p.id].updatedAt == now
      && o.rows[p.id].name == (if p.name.Some? then p.name else t[p.id].name)
      && o.rows[p.id].avatarUrl == (if p.avatarUrl.Some? then p.avatarUrl else t[p.id].avatarUrl)
      && o.rows[p.id].provider == (if p.provider.Some? then p.provider else t[p.id].provider)
      && (forall u :: u in t && u != p.id ==> o.rows[u] == t[u])
  {
  }

  /** For an absent id, a successful call inserts exactly one row, stamped on both timestamps. */
  lemma UpsertInsertsAbsent(t: UserTable, p: UserProfile, now: Timestamp)
    requires p.id !in t
    ensures var o := Upsert(t, p, now, None, false);
      && o.ok && o.rows.Keys == t.Keys + {p.id}
      && o.rows[p.id] == UserRow(p.id, p.email, p.name, p.avatarUrl, p.provider, now, now)
  {
  }

  /**
   * After a `true` result the row with the profile's id exists and holds
   * its email and every optional field the profile defines; no other row
   * changed.
   */
  lemma UpsertSuccessHoldsProfile(t: UserTable, p: UserProfile, now: Timestamp, injected: Option<string>, writeFault: bool)
    ensures var o := Upsert(t, p, now, injected, writeFault);
      o.ok ==>
        && p.id in o.rows && o.rows[p.id].email == p.email
        && (p.name.Some? ==> o.rows[p.id].name == p.name)
        && (p.avatarUrl.Some? ==> o.rows[p.id].avatarUrl == p.avatarUrl)
        && (p.provider.Some? ==> o.rows[p.id].provider == p.provider)
        && (forall u :: u in t && u != p.id ==> u in o.rows && o.rows[u] == t[u])
  {
  }

  /** `getUserProfile`: the stored row, or nothing on an error (a missing row is one). */
  function GetUserProfile(t: UserTable, id: string, fault: bool): (r: Option<UserRow>)
    ensures r.Some? <==> !fault && id in t
    ensures r.Some? ==> r.value == t[id]
  {
    if fault || id !in t then None else Some(t[id])
  }

  class UserStore {
    var rows: UserTable
    var clock: Timestamp

    constructor ()
      ensures rows == map[] && clock == 0
    {
      rows, clock := map[], 0;
    }

    /** `createOrUpdateUserProfile` on the stored table, reading the clock once. */
    method CreateOrUpdateUserProfile(p: UserProfile, elapsed: nat, injected: Option<string>, writeFault: bool)
      returns (ok: bool)
      modifies this
      ensures clock == old(clock) + elapsed
      ensures UpsertOutcome(rows, ok) == Upsert(old(rows), p, clock, injected, writeFault)
    {
      clock := clock + elapsed;
      var found := LookupUser(rows, p.id, injected);
      if found.errorCode.Some? && found.errorCode.value != NotFoundCode {
        return false;
      }
      if found.existing.Some? {
        if writeFault {
          return false;
        }
        var stored := found.existing.value;
        var row := stored.(email := p.email, name := Overwrite(p.name, stored.name),
                           avatarUrl := Overwrite(p.avatarUrl, stored.avatarUrl),
                           provider := Overwrite(p.provider, stored.provider), updatedAt := clock);
        rows := rows[p.id := row];
      } else {
        if writeFault || p.id in rows {
          return false;
        }
        rows := rows[p.id := UserRow(p.id, p.email, p.name, p.avatarUrl, p.provider, clock, clock)];
      }
      ok := true;
    }
  }
}
