/**
 The client table of src/server/serve.c: accepting, auditing, closing and joining clients.
 */
module Serve {
  import opened Acl

  /** `struct client_tbl_entry`; `thread` 0 is a free slot, `stopped` says the stop signal was raised. */
  datatype Slot = Slot(thread: nat, address: Address, stopped: bool) {
    predicate Connected() { thread != 0 }
  }

  datatype Option<T> = None | Some(value: T)

  predicate Accepts(acl: Option<AccessList>, a: Address)
    requires acl.Some? ==> IsList(acl.value.entries)
    requires IsAddress(a)
  {
    acl.Some? ==> Admits(acl.value, a)
  }

  class Server {
    const clients: array<Slot>
    var acl: Option<AccessList>
    var allowNewClients: bool
    var success: bool
    /** The two self-pipes: something waits to be read. */
    var aclUpdated: bool
    var closeSignalled: bool

    constructor (maxClients: nat, acl: Option<AccessList>, success: bool)
      requires acl.Some? ==> IsList(acl.value.entries)
      ensures Valid() && Enforced() && fresh(clients) && Empty() && allowNewClients && this.success == success
    {
      clients := new Slot[maxClients](_ => Slot(0, Address(Unix, []), false));
      this.acl, allowNewClients, this.success := acl, true, success;
      aclUpdated, closeSignalled := false, false;
    }

    ghost predicate Valid()
      reads this, clients
    {
      && (acl.Some? ==> IsList(acl.value.entries))
      && forall i :: 0 <= i < clients.Length ==> IsAddress(clients[i].address)
    }

    /** Unless an audit is due, every client that has not been told to stop is one the list accepts. */
    ghost predicate Enforced()
      requires Valid()
      reads this, clients
    {
      !aclUpdated ==> forall i :: 0 <= i < clients.Length && clients[i].Connected() && !clients[i].stopped ==>
        Accepts(acl, clients[i].address)
    }

    ghost predicate Empty()
      reads this, clients
    {
      forall i :: 0 <= i < clients.Length ==> !clients[i].Connected()
    }

    /** server_acl_accepts */
    method AclAccepts(a: Address) returns (r: bool)
      requires Valid() && IsAddress(a)
      ensures r == Accepts(acl, a)
      ensures acl.None? ==> r
      ensures acl.Some? && acl.value.entries == [] ==> (r <==> !acl.value.defaultDeny)
      ensures acl.Some? && acl.value.entries != [] ==>
                (r <==> exists i :: 0 <= i < |acl.value.entries| && Covers(acl.value.entries[i], a))
    {
      if acl.Some? {
        r := Includes(acl.value, a);
      } else {
        r := true;
      }
    }

    /** server_audit_clients: exactly the connected clients the list rejects are told to stop. */
    method Audit()
      requires Valid()
      modifies clients
      ensures Valid()
      ensures forall i :: 0 <= i < clients.Length ==>
                var was := old(clients[i]);
                clients[i] == if was.Connected() && !Accepts(acl, was.address) then was.(stopped := true) else was
    {
      for i := 0 to clients.Length
        invariant Valid()
        invariant forall k :: i <= k < clients.Length ==> clients[k] == old(clients[k])
        invariant forall k :: 0 <= k < i ==>
                    var was := old(clients[k]);
                    clients[k] == if was.Connected() && !Accepts(acl, was.address) then was.(stopped := true) else was
      {
        if clients[i].Connected() {
          var accepted := AclAccepts(clients[i].address);
          if !accepted {
            clients[i] := clients[i].(stopped := true);
          }
        }
      }
    }

    /** server_replace_acl: the clients are audited later, when the signal is seen. */
    method ReplaceAcl(newAcl: AccessList)
      requires Valid() && IsList(newAcl.entries)
      modifies this`acl, this`aclUpdated
      ensures Valid() && Enforced() && acl == Some(newAcl) && aclUpdated
    {
      acl := Some(newAcl);
      aclUpdated := true;
    }

    /** The acl_updated branch of server_accept. */
    method AclSignal()
      requires Valid() && Enforced()
      modifies this`aclUpdated, clients
      ensures Valid() && Enforced() && !aclUpdated
      ensures forall i :: 0 <= i < clients.Length ==> clients[i].(stopped := old(clients[i]).stopped) == old(clients[i])
      ensures forall i :: 0 <= i < clients.Length && !old(clients[i].stopped) ==>
                (clients[i].stopped <==> old(aclUpdated) && old(clients[i]).Connected() && !Accepts(acl, old(clients[i]).address))
    {
      if aclUpdated {
        aclUpdated := false;
        Audit();
      }
    }

    /** cleanup_client_threads: free the slots of the threads that have ended. */
    method Cleanup(ended: nat -> bool)
      requires Valid() && Enforced()
      modifies clients
      ensures Valid() && Enforced()
      ensures forall i :: 0 <= i < clients.Length ==>
                clients[i] == if ended(i) then old(clients[i]).(thread := 0) else old(clients[i])
    {
      for i := 0 to clients.Length
        invariant Valid()
        invariant forall k :: i <= k < clients.Length ==> clients[k] == old(clients[k])
        invariant forall k :: 0 <= k < i ==>
                    clients[k] == if ended(k) then old(clients[k]).(thread := 0) else old(clients[k])
      {
        if clients[i].Connected() && ended(i) {
          clients[i] := clients[i].(thread := 0);
        }
      }
    }

    /** cleanup_and_find_client_slot: the first free slot, or none. */
    method FindSlot(ended: nat -> bool) returns (slot: int)
      requires Valid() && Enforced()
      modifies clients
      ensures Valid() && Enforced()
      ensures forall i :: 0 <= i < clients.Length ==>
                clients[i] == if ended(i) then old(clients[i]).(thread := 0) else old(clients[i])
      ensures -1 <= slot < clients.Length
      ensures slot >= 0 ==> !clients[slot].Connected()
      ensures forall i :: 0 <= i < (if slot < 0 then clients.Length else slot) ==> clients[i].Connected()
    {
      Cleanup(ended);
      for i := 0 to clients.Length
        invariant forall k :: 0 <= k < i ==> clients[k].Connected()
      {
        if !clients[i].Connected() {
          return i;
        }
      }
      return -1;
    }

    /** The client is in the table, and nobody was thrown out for it. */
    twostate predicate Added(thread: nat, address: Address, ended: nat -> bool)
      reads this, clients
    {
      exists s :: 0 <= s < clients.Length && clients[s] == Slot(thread, address, false) &&
        (ended(s) || !old(clients[s]).Connected()) &&
        forall i :: 0 <= i < clients.Length && i != s ==>
          clients[i] == if ended(i) then old(clients[i]).(thread := 0) else old(clients[i])
    }

    /**
     The accepting branch of server_accept with accept_nbd_client: a client gets a slot exactly when
     clients are allowed, the list accepts its address and a slot is free.
     */
    method Accept(thread: nat, address: Address, ended: nat -> bool) returns (accepted: bool)
      requires Valid() && Enforced() && thread != 0 && IsAddress(address)
      modifies clients
      ensures Valid() && Enforced()
      ensures accepted <==>
                && allowNewClients && Accepts(acl, address)
                && exists i :: 0 <= i < clients.Length && (ended(i) || !old(clients[i]).Connected())
      ensures accepted ==> Added(thread, address, ended)
      ensures !accepted ==> forall i :: 0 <= i < clients.Length && clients[i].Connected() ==> clients[i] == old(clients[i])
      ensures !allowNewClients ==> unchanged(clients)
    {
      if !allowNewClients {
        return false;
      }
      var ok := AclAccepts(address);
      if !ok {
        return false;
      }
      var slot := FindSlot(ended);
      if slot < 0 {
        return false;
      }
      clients[slot] := Slot(thread, address, false);
      return true;
    }

    /** server_close_clients: every connected client is told to stop; none is joined. */
    method CloseClients()
      requires Valid()
      modifies clients
      ensures Valid() && (old(Enforced()) ==> Enforced())
      ensures forall i :: 0 <= i < clients.Length ==>
                clients[i] == if old(clients[i]).Connected() then old(clients[i]).(stopped := true) else old(clients[i])
    {
      for i := 0 to clients.Length
        invariant Valid()
        invariant forall k :: i <= k < clients.Length ==> clients[k] == old(clients[k])
        invariant forall k :: 0 <= k < i ==>
                    clients[k] == if old(clients[k]).Connected() then old(clients[k]).(stopped := true) else old(clients[k])
      {
        if clients[i].Connected() {
          clients[i] := clients[i].(stopped := true);
        }
      }
    }

    /** server_join_clients: a slot is free afterwards exactly if its thread could be joined, or it was free. */
    method JoinClients(joins: nat -> bool)
      requires Valid()
      modifies clients
      ensures Valid() && (old(Enforced()) ==> Enforced())
      ensures forall i :: 0 <= i < clients.Length ==>
                clients[i] == if joins(i) then old(clients[i]).(thread := 0) else old(clients[i])
    {
      for i := 0 to clients.Length
        invariant Valid()
        invariant forall k :: i <= k < clients.Length ==> clients[k] == old(clients[k])
        invariant forall k :: 0 <= k < i ==>
                    clients[k] == if joins(k) then old(clients[k]).(thread := 0) else old(clients[k])
      {
        if clients[i].Connected() && joins(i) {
          clients[i] := clients[i].(thread := 0);
        }
      }
    }

    /**
     The converging mirror shuts the door (src/server/mirror.c:609-612).  Exactly when every
     connected thread is joined, nobody is connected afterwards; and the door stays shut.
     */
    method ShutDoor(joins: nat -> bool)
      requires Valid()
      modifies this`allowNewClients, clients
      ensures Valid() && !allowNewClients && (old(Enforced()) ==> Enforced())
      ensures Empty() <==> forall i :: 0 <= i < clients.Length && old(clients[i]).Connected() ==> joins(i)
    {
      allowNewClients := false;
      CloseClients();
      JoinClients(joins);
    }

    /** server_control_arrived: the listener takes control once, and asks itself to close. */
    method ControlArrived()
      modifies this`success, this`closeSignalled
      ensures success
      ensures closeSignalled == (old(closeSignalled) || !old(success))
    {
      if !success {
        success := true;
        closeSignalled := true;
      }
    }
  }
}
