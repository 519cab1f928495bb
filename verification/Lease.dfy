/**
 The cluster lease: one server-side key with an expiry, and the four scripts
 that are the only code allowed to touch it. The server clock is in milliseconds.
 */
module Lease {
  import opened Wrappers

  type Node = string

  const LEASE_TTL_SECONDS: nat := 30

  /** The scripts take milliseconds. */
  const LEASE_TTL_MS: nat := LEASE_TTL_SECONDS * 1000

  datatype Grant = Grant(owner: Node, expiresAt: nat)

  datatype Server = Server(now: nat, key: Option<Grant>) {
    /** What GET answers: an expired key is no key. */
    function Get(): Option<Node> {
      if key.Some? && now < key.value.expiresAt then Some(key.value.owner) else None
    }

    function GrantedTo(node: Node, ttl: nat): Server {
      this.(key := Some(Grant(node, now + ttl)))
    }
  }

  function TakeOrRenew(s: Server, node: Node, ttl: nat): (Server, bool) {
    match s.Get()
    case None => (s.GrantedTo(node, ttl), true)
    case Some(owner) => if owner == node then (s.GrantedTo(node, ttl), true) else (s, false)
  }

  function RenewOnly(s: Server, node: Node, ttl: nat): (Server, bool) {
    if s.Get() == Some(node) then (s.GrantedTo(node, ttl), true) else (s, false)
  }

  function Release(s: Server, node: Node): (Server, bool) {
    if s.Get() == Some(node) then (s.(key := None), true) else (s, false)
  }

  /** The key as the server stores it, driven by the scripts' own commands. */
  class LeaderKey {
    var now: nat
    var stored: bool
    var owner: Node
    var expiresAt: nat

    constructor ()
      ensures View() == Server(0, None)
    {
      now, stored, owner, expiresAt := 0, false, "", 0;
    }

    function View(): Server
      reads this
    {
      Server(now, if stored then Some(Grant(owner, expiresAt)) else None)
    }

    method Get() returns (current: Option<Node>)
      ensures current == View().Get()
    {
      if stored && now < expiresAt {
        current := Some(owner);
      } else {
        current := None;
      }
    }

    method SetPx(node: Node, ttl: nat)
      modifies this`stored, this`owner, this`expiresAt
      ensures View() == old(View()).GrantedTo(node, ttl)
    {
      stored, owner, expiresAt := true, node, now + ttl;
    }

    method PExpire(ttl: nat)
      requires stored && now < expiresAt
      modifies this`expiresAt
      ensures View() == old(View()).GrantedTo(old(owner), ttl)
    {
      expiresAt := now + ttl;
    }

    method LeaseScript(node: Node, ttl: nat) returns (result: int)
      modifies this`stored, this`owner, this`expiresAt
      ensures result == if old(stored && now < expiresAt && owner != node) then 0 else 1
      ensures View().key == if result == 1 then Some(Grant(node, now + ttl)) else old(View().key)
      ensures (View(), result == 1) == TakeOrRenew(old(View()), node, ttl)
    {
      var current := Get();
      if current == None {
        SetPx(node, ttl);
        return 1;
      } else if current == Some(node) {
        PExpire(ttl);
        return 1;
      }
      return 0;
    }

    method ForceScript(node: Node, ttl: nat) returns (result: int)
      modifies this`stored, this`owner, this`expiresAt
      ensures result == 1 && View() == old(View()).GrantedTo(node, ttl)
      ensures View().key == Some(Grant(node, now + ttl))
    {
      SetPx(node, ttl);
      return 1;
    }

    method ReleaseScript(node: Node) returns (result: int)
      modifies this`stored
      ensures result == if old(stored && now < expiresAt && owner == node) then 1 else 0
      ensures View().key == if result == 1 then None else old(View().key)
      ensures (View(), result == 1) == Release(old(View()), node)
    {
      var current := Get();
      if current == Some(node) {
        stored := false;
        return 1;
      }
      return 0;
    }

    method RenewOnlyScript(node: Node, ttl: nat) returns (result: int)
      modifies this`expiresAt
      ensures result == if old(stored && now < expiresAt && owner == node) then 1 else 0
      ensures View().key == if result == 1 then Some(Grant(node, now + ttl)) else old(View().key)
      ensures (View(), result == 1) == RenewOnly(old(View()), node, ttl)
    {
      var current := Get();
      if current == Some(node) {
        PExpire(ttl);
        return 1;
      }
      return 0;
    }
  }
}
