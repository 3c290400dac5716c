/** The session-guarded profile endpoint: a table of profile records keyed
    by the `userId` of their owner, created once and updated in place. */
module OwnerTable {
  import opened Values

  const Unauthorized: string := "Unauthorized"
  const UserNotFound: string := "User not found"
  const AlreadyExists: string := "Profile already exists"

  /** A reply's JSON: an error message, or `{ ok: true, profile }`. */
  datatype OwnerBody = Failure(error: string) | Saved(profile: Body)

  /** What a handler ends in: a reply, or a storage error no handler catches. */
  datatype Outcome = Replied(status: int, body: OwnerBody) | Crash

  /** The user a session resolves to, or the reply that refuses it. */
  datatype Caller = Refused(status: int, message: string) | User(id: string)

  /** The `userId` a record is stored under, when it is a string. */
  function Owner(record: Body): Option<string> {
    if "userId" in record && record["userId"].Str? then Some(record["userId"].s) else None
  }

  /** `{ userId: id, ...body }`: the body's fields, and the session's id
      unless the body names a `userId` of its own, which wins. */
  function CreateRecord(userId: string, body: Body): (r: Body)
    ensures r.Keys == body.Keys + {"userId"}
    ensures forall k :: k in body ==> r[k] == body[k]
    ensures "userId" !in body ==> Owner(r) == Some(userId)
  {
    map["userId" := Str(userId)] + body
  }

  /** An update with `data: body`: the body's fields replace the stored ones
      and every other stored field stays. */
  function UpdateRecord(stored: Body, body: Body): (r: Body)
    ensures r.Keys == stored.Keys + body.Keys
    ensures forall k :: k in body ==> r[k] == body[k]
    ensures forall k :: k in stored && k !in body ==> r[k] == stored[k]
  {
    stored + body
  }

  /** An update that leaves `userId` alone keeps the record's owner. */
  lemma UpdateKeepsOwner(stored: Body, body: Body)
    requires "userId" !in body
    ensures Owner(UpdateRecord(stored, body)) == Owner(stored)
  {
  }

  /** A body naming a string `userId` assigns the new record to that id
      rather than to the caller. */
  lemma BodyUserIdOverridesSession(userId: string, body: Body)
    requires "userId" in body && body["userId"].Str?
    ensures Owner(CreateRecord(userId, body)) == Some(body["userId"].s)
  {
  }

  class ProfileTable {
    /** Registered users: email to user id. */
    var users: map<string, string>
    /** Profile records by the `userId` column, which is unique. */
    var profiles: map<string, Body>

    /** Every record is stored under its own owner. */
    predicate Valid()
      reads this
    {
      forall id :: id in profiles ==> Owner(profiles[id]) == Some(id)
    }

    constructor (users: map<string, string>)
      ensures Valid() && this.users == users && profiles == map[]
    {
      this.users := users;
      profiles := map[];
    }

    /** The session check and the user lookup both handlers start with: no
        (or an empty) session email is refused with 401, an email no user has
        with 404. */
    function Resolve(email: Option<string>): (c: Caller)
      reads this
      ensures email.None? || email == Some("") ==> c == Refused(401, Unauthorized)
      ensures email.Some? && email.value != "" && email.value !in users ==> c == Refused(404, UserNotFound)
      ensures c.User? <==> email.Some? && email.value != "" && email.value in users
      ensures c.User? ==> c.id == users[email.value]
    {
      if email.None? || email.value == "" then Refused(401, Unauthorized)
      else if email.value !in users then Refused(404, UserNotFound)
      else User(users[email.value])
    }

    /** `POST`: refuses the session as `Resolve` says, then refuses with 400 a
        caller that already has a profile; otherwise creates the record
        `{ userId, ...body }`, which fails in storage when its `userId` is not
        a string or is taken. Nothing is written unless the reply is 200. */
    method Post(email: Option<string>, body: Body) returns (out: Outcome)
      requires Valid()
      modifies this
      ensures Valid() && users == old(users)
      ensures var who := Resolve(email);
              if who.Refused? then
                out == Replied(who.status, Failure(who.message)) && profiles == old(profiles)
              else if who.id in old(profiles) then
                out == Replied(400, Failure(AlreadyExists)) && profiles == old(profiles)
              else
                var rec := CreateRecord(who.id, body);
                if Owner(rec).None? || Owner(rec).value in old(profiles) then
                  out == Crash && profiles == old(profiles)
                else
                  out == Replied(200, Saved(rec)) && profiles == old(profiles)[Owner(rec).value := rec]
      ensures out.Replied? && out.status == 200 && "userId" !in body ==> Resolve(email).id in profiles
    {
      var who := Resolve(email);
      if who.Refused? {
        return Replied(who.status, Failure(who.message));
      }
      if who.id in profiles {
        return Replied(400, Failure(AlreadyExists));
      }
      var rec := CreateRecord(who.id, body);
      var owner := Owner(rec);
      if owner.None? || owner.value in profiles {
        return Crash;
      }
      profiles := profiles[owner.value := rec];
      out := Replied(200, Saved(rec));
    }

    /** `PUT`: refuses the session as `Resolve` says; updating a caller
        without a profile fails in storage; otherwise the caller's record
        takes the body's fields (moving to the new `userId` if the body
        changes it, which fails when that id is taken or not a string).
        No other record changes. */
    method Put(email: Option<string>, body: Body) returns (out: Outcome)
      requires Valid()
      modifies this
      ensures Valid() && users == old(users)
      ensures var who := Resolve(email);
              if who.Refused? then
                out == Replied(who.status, Failure(who.message)) && profiles == old(profiles)
              else if who.id !in old(profiles) then
                out == Crash && profiles == old(profiles)
              else
                var rec := UpdateRecord(old(profiles)[who.id], body);
                if Owner(rec).None? || (Owner(rec).value != who.id && Owner(rec).value in old(profiles)) then
                  out == Crash && profiles == old(profiles)
                else
                  out == Replied(200, Saved(rec))
                  && profiles == (old(profiles) - {who.id})[Owner(rec).value := rec]
      ensures forall id :: id in old(profiles) && (Resolve(email).Refused? || id != Resolve(email).id)
                ==> id in profiles && profiles[id] == old(profiles)[id]
    {
      var who := Resolve(email);
      if who.Refused? {
        return Replied(who.status, Failure(who.message));
      }
      if who.id !in profiles {
        return Crash;
      }
      var rec := UpdateRecord(profiles[who.id], body);
      var owner := Owner(rec);
      if owner.None? || (owner.value != who.id && owner.value in profiles) {
        return Crash;
      }
      profiles := (profiles - {who.id})[owner.value := rec];
      out := Replied(200, Saved(rec));
    }
  }
}
