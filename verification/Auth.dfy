/** One process of `stardustlib/auth_client.py` with the lock and the file of
    `stardustlib/credential_store.py`. Other processes act whenever this one does
    not hold the lock, and only as the protocol of `TokenRefresh` lets them. */
module Auth {
  import opened Rows
  import opened TokenRefresh

  /** Seconds between two looks at the lock file. */
  const LOCK_POLL := 0.1

  class TokenServer {
    var latest: nat
    var revoked: bool
    /** What the requests of this process came to. */
    ghost var replies: seq<Option<Option<Tokens>>>

    constructor (latest: nat)
      ensures this.latest == latest && !revoked && replies == []
    {
      this.latest, revoked, replies := latest, false, [];
    }

    /** `POST /auth/refresh`: nothing when the request does not get through. */
    method Refresh(token: nat) returns (reply: Option<Option<Tokens>>)
      modifies this
      ensures revoked == old(revoked) && replies == old(replies) + [reply]
      ensures reply.None? ==> latest == old(latest)
      ensures reply.Some? ==> (reply.value.Some? <==> token == old(latest) && !revoked)
      ensures reply.Some? && reply.value.Some? ==> latest != old(latest) && reply.value.value.refresh == Some(latest)
      ensures reply == Some(None) ==> latest == old(latest)
    {
      var delivered: bool := *;
      reply := if delivered then Some(None) else None;
      if !delivered || token != latest || revoked {
        replies := replies + [reply];
        return;
      }
      var access: nat, expiresAt: real, step: nat := *, *, *;
      latest := latest + step + 1;
      reply := Some(Some(Tokens(Some(access), Some(latest), expiresAt)));
      replies := replies + [reply];
    }
  }

  class CredentialStore {
    var file: Option<Tokens>
    var held: bool
    /** Whether the lock was held, at every look at it. */
    ghost var looks: seq<bool>

    constructor (file: Option<Tokens>)
      ensures this.file == file && !held && looks == []
    {
      this.file, held, looks := file, false, [];
    }

    method Load() returns (data: Option<Tokens>)
      ensures data == file
    {
      data := file;
    }

    method Save(data: Tokens)
      modifies this`file
      ensures file == Some(data)
    {
      file := Some(data);
    }

    method Release()
      modifies this`held
      ensures !held
    {
      held := false;
    }
  }

  class AuthClient {
    var memory: Tokens
    const store: CredentialStore
    const server: TokenServer

    constructor (memory: Tokens, store: CredentialStore, server: TokenServer)
      ensures this.memory == memory && this.store == store && this.server == server
    {
      this.memory, this.store, this.server := memory, store, server;
    }

    /** The file is up to date whenever nobody holds the lock. */
    predicate Agreed()
      reads store, server
    {
      store.file.Some? && store.file.value.refresh in {None, Some(server.latest)}
    }

    /** Other processes run until they come to rest with the lock free, or one of
        them keeps it for now. */
    method Others()
      modifies store, server
      ensures !store.held ==> Agreed()
      ensures store.looks == old(store.looks) + [store.held] && server.replies == old(server.replies)
    {
      var busy: bool := *;
      var latest: nat, revoked: bool, access: Option<nat>, expiresAt: real, out: bool := *, *, *, *, *;
      store.held, server.latest, server.revoked := busy, latest, revoked;
      store.file := Some(Tokens(access, if out then None else Some(latest), expiresAt));
      store.looks := store.looks + [busy];
    }

    /** The lock was held at every look but the last, and free then iff `free`. */
    ghost predicate Polled(before: seq<bool>, after: seq<bool>, free: bool) {
      && |before| < |after| && before <= after && after[|after| - 1] == !free
      && forall i | |before| <= i < |after| - 1 :: after[i]
    }

    /** `file_lock`: polls until the file can be created or the time is up. */
    method AcquireLock(start: real) returns (ok: bool, now: real)
      modifies store, server
      ensures now >= start
      ensures ok ==> store.held && Agreed()
      ensures !ok ==> now > start + LOCK_TIMEOUT
      ensures Polled(old(store.looks), store.looks, ok) && server.replies == old(server.replies)
    {
      now := start;
      var deadline := start + LOCK_TIMEOUT;
      ghost var polls := 102;
      while true
        invariant now >= start && polls >= 1
        invariant now <= deadline + LOCK_POLL ==> now >= start + LOCK_POLL * (102 - polls) as real
        invariant polls == 1 ==> now > deadline
        invariant old(store.looks) <= store.looks && server.replies == old(server.replies)
        invariant forall i | |old(store.looks)| <= i < |store.looks| :: store.looks[i]
        decreases polls
      {
        Others();
        if !store.held {
          store.held := true;
          return true, now;
        }
        if now > deadline {
          return false, now;
        }
        var pause: real := *;
        now := now + LOCK_POLL + (if pause < 0.0 then 0.0 else pause);
        polls := polls - 1;
      }
    }

    /** What the answers to this process did to its tokens: without a request or an
        answer they stay, a refusal clears them, and a grant replaces them. */
    ghost predicate Renewed(before: Tokens, had: seq<Option<Option<Tokens>>>, after: Tokens, has: seq<Option<Option<Tokens>>>) {
      || (has == had && after == before)
      || (has == had + [None] && after == before)
      || (has == had + [Some(None)] && after == NO_TOKENS)
      || exists granted :: has == had + [Some(Some(granted))] && after == granted
    }

    /** `refresh_token`, with the outcome of the request: kept tokens when it did not
        get through, new ones when it was granted, none when it was refused. */
    method RefreshToken() returns (sent: Option<nat>)
      requires store.held && Agreed() && memory == store.file.value
      modifies this`memory, store`file, server
      ensures Agreed() && memory == store.file.value && server.revoked == old(server.revoked)
      ensures sent == old(memory.refresh) && (sent.Some? ==> sent.value == old(server.latest))
      ensures memory == old(memory) || memory == NO_TOKENS || memory.refresh == Some(server.latest)
      ensures memory != old(memory) && memory == NO_TOKENS ==> server.revoked
      ensures Renewed(old(memory), old(server.replies), memory, server.replies) && (sent.Some? <==> server.replies != old(server.replies))
    {
      sent := memory.refresh;
      if memory.refresh.None? {
        return;
      }
      var reply := server.Refresh(memory.refresh.value);
      if reply.None? {
        return;
      }
      memory := if reply.value.Some? then reply.value.value else NO_TOKENS;
      store.Save(memory);
    }

    /** `_refresh_with_lock`: a request presents the token the server accepts now;
        a fresh token found in the file makes it unnecessary. */
    method RefreshWithLock(start: real) returns (sent: Option<nat>, locked: bool, ghost latest: nat, ghost found: Tokens, ghost now: real)
      modifies this`memory, store, server
      ensures locked ==> !store.held && Agreed() && memory == store.file.value
      ensures !locked ==> sent == None && memory == old(memory) && now > start + LOCK_TIMEOUT
      ensures sent.Some? ==> locked && sent.value == latest && !Fresh(found, now)
      ensures locked && Fresh(found, now) ==> sent == None && memory == found
      ensures locked && sent.None? && !Fresh(found, now) ==> found.refresh == None
      ensures Polled(old(store.looks), store.looks, locked)
      ensures locked ==> Renewed(found, old(server.replies), memory, server.replies)
      ensures sent.Some? <==> server.replies != old(server.replies)
    {
      var ok, t := AcquireLock(start);
      now, latest, found := t, server.latest, memory;
      if !ok {
        return None, false, latest, found, now;
      }
      var data := store.Load();
      memory, found := Reloaded(memory, data, true), data.value;
      if memory.access.Some? && t < memory.expiresAt - MARGIN {
        store.Release();
        return None, true, latest, found, now;
      }
      sent := RefreshToken();
      store.Release();
      locked := true;
    }

    /** `get_valid_token`. A token that is about to expire is renewed through the
        file; without the lock it is used as it is. `latest`, `found` and `asked` are
        what the server accepted, what the file held, and when, under the lock. */
    method GetValidToken(now: real) returns (token: Option<nat>, sent: Option<nat>, locked: bool,
                                             ghost latest: nat, ghost found: Tokens, ghost asked: real)
      modifies this`memory, store, server
      ensures token == memory.access
      ensures old(memory.access) == None || now < old(memory.expiresAt) - 60.0 ==> sent == None && !locked && memory == old(memory)
      ensures !locked ==> sent == None && memory == old(memory)
      ensures old(memory.access).Some? && now >= old(memory.expiresAt) - 60.0 && !locked ==> asked > now + 10.0
      ensures locked ==> !store.held && Agreed() && memory == store.file.value
      ensures sent.Some? ==> locked && sent.value == latest && (found.access == None || asked >= found.expiresAt - 60.0)
      ensures locked && found.access.Some? && asked < found.expiresAt - 60.0 ==> sent == None && token == found.access
      ensures locked && sent.None? && (found.access == None || asked >= found.expiresAt - 60.0) ==> found.refresh == None
      ensures old(memory.access).Some? && now >= old(memory.expiresAt) - 60.0 ==> Polled(old(store.looks), store.looks, locked)
      ensures locked ==> Renewed(found, old(server.replies), memory, server.replies)
      ensures sent.Some? <==> server.replies != old(server.replies)
    {
      sent, locked, latest, found, asked := None, false, 0, memory, now;
      if memory.access.None? {
        token := None;
        return;
      }
      if now >= memory.expiresAt - MARGIN {
        sent, locked, latest, found, asked := RefreshWithLock(now);
      }
      token := memory.access;
    }
  }
}
