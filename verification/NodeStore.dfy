/**
  The store scripts of the Node locator: each is one atomic read-check-write on
  the epoch keys and the binding keys of one service.
 */
module NodeStore {

  type NodeId = string
  type Epoch = string
  type Uid = string

  // Milliseconds, node/epoch.go and locate/redis/node.go.
  const EPOCH_TTL: nat := 30_000
  const BINDING_TTL: nat := 21_600_000

  datatype StoredEpoch = StoredEpoch(epoch: Epoch, expiry: nat)
  datatype StoredBinding = StoredBinding(node: NodeId, expiry: nat)

  datatype BindingOp = Bind | RenewBinding | Unbind

  /** The status codes 1, 0, -1, -5 and -6. */
  datatype Status = Done | EpochMissing | EpochConflict | BindingMissing | BindingConflict

  function EpochGate(epochs: map<NodeId, StoredEpoch>, node: NodeId, epoch: Epoch): Status {
    if node !in epochs then EpochMissing else if epochs[node].epoch != epoch then EpochConflict else Done
  }

  function WriteStatus(epochs: map<NodeId, StoredEpoch>, bindings: map<Uid, StoredBinding>, op: BindingOp,
                       node: NodeId, epoch: Epoch, uid: Uid): Status {
    var gate := EpochGate(epochs, node, epoch);
    if !gate.Done? || !op.RenewBinding? then gate
    else if uid !in bindings then BindingMissing
    else if bindings[uid].node != node then BindingConflict
    else Done
  }

  /** The bindings after the script; an unbind of a binding that names another node
      is acknowledged without a change. */
  function Written(epochs: map<NodeId, StoredEpoch>, bindings: map<Uid, StoredBinding>, op: BindingOp,
                   node: NodeId, epoch: Epoch, uid: Uid, now: nat): map<Uid, StoredBinding> {
    if !WriteStatus(epochs, bindings, op, node, epoch, uid).Done? then bindings
    else match op
      case Bind => bindings[uid := StoredBinding(node, now + BINDING_TTL)]
      case RenewBinding => bindings[uid := StoredBinding(node, now + BINDING_TTL)]
      case Unbind => if uid in bindings && bindings[uid].node == node then bindings - {uid} else bindings
  }

  class Store {
    var epochs: map<NodeId, StoredEpoch>
    var bindings: map<Uid, StoredBinding>

    constructor ()
      ensures epochs == map[] && bindings == map[]
    {
      epochs, bindings := map[], map[];
    }

    method RegisterEpoch(node: NodeId, epoch: Epoch, now: nat) returns (status: Status)
      modifies this`epochs
      ensures status == if node in old(epochs) then EpochConflict else Done
      ensures epochs == if status.Done? then old(epochs)[node := StoredEpoch(epoch, now + EPOCH_TTL)] else old(epochs)
    {
      if node in epochs { return EpochConflict; }
      epochs := epochs[node := StoredEpoch(epoch, now + EPOCH_TTL)];
      return Done;
    }

    method RenewEpoch(node: NodeId, epoch: Epoch, now: nat) returns (status: Status)
      modifies this`epochs
      ensures status == if node !in old(epochs) then EpochMissing
                        else if old(epochs)[node].epoch != epoch then EpochConflict else Done
      ensures epochs == if status.Done? then old(epochs)[node := StoredEpoch(epoch, now + EPOCH_TTL)] else old(epochs)
    {
      if node !in epochs { return EpochMissing; }
      if epochs[node].epoch != epoch { return EpochConflict; }
      epochs := epochs[node := epochs[node].(expiry := now + EPOCH_TTL)];
      return Done;
    }

    /** Compare and delete; a missing or a foreign epoch is acknowledged as well. */
    method UnregisterEpoch(node: NodeId, epoch: Epoch)
      modifies this`epochs
      ensures epochs == if node in old(epochs) && old(epochs)[node].epoch == epoch then old(epochs) - {node} else old(epochs)
    {
      if node in epochs && epochs[node].epoch == epoch {
        epochs := epochs - {node};
      }
    }

    method BindNode(node: NodeId, epoch: Epoch, uid: Uid, now: nat) returns (status: Status)
      modifies this`bindings
      ensures status == if node !in epochs then EpochMissing else if epochs[node].epoch != epoch then EpochConflict else Done
      ensures bindings == if status.Done? then old(bindings)[uid := StoredBinding(node, now + BINDING_TTL)] else old(bindings)
      ensures status == WriteStatus(epochs, old(bindings), Bind, node, epoch, uid)
      ensures bindings == Written(epochs, old(bindings), Bind, node, epoch, uid, now)
    {
      if node !in epochs { return EpochMissing; }
      if epochs[node].epoch != epoch { return EpochConflict; }
      bindings := bindings[uid := StoredBinding(node, now + BINDING_TTL)];
      return Done;
    }

    method RenewNode(node: NodeId, epoch: Epoch, uid: Uid, now: nat) returns (status: Status)
      modifies this`bindings
      ensures status == if node !in epochs then EpochMissing else if epochs[node].epoch != epoch then EpochConflict
                        else if uid !in old(bindings) then BindingMissing
                        else if old(bindings)[uid].node != node then BindingConflict else Done
      ensures bindings == if status.Done? then old(bindings)[uid := StoredBinding(node, now + BINDING_TTL)] else old(bindings)
      ensures status == WriteStatus(epochs, old(bindings), RenewBinding, node, epoch, uid)
      ensures bindings == Written(epochs, old(bindings), RenewBinding, node, epoch, uid, now)
      ensures bindings.Keys == old(bindings).Keys
      ensures forall u :: u in bindings ==> bindings[u].node == old(bindings)[u].node
    {
      if node !in epochs { return EpochMissing; }
      if epochs[node].epoch != epoch { return EpochConflict; }
      if uid !in bindings { return BindingMissing; }
      if bindings[uid].node != node { return BindingConflict; }
      bindings := bindings[uid := bindings[uid].(expiry := now + BINDING_TTL)];
      return Done;
    }

    method UnbindNode(node: NodeId, epoch: Epoch, uid: Uid, now: nat) returns (status: Status)
      modifies this`bindings
      ensures status == if node !in epochs then EpochMissing else if epochs[node].epoch != epoch then EpochConflict else Done
      ensures bindings == if status.Done? && uid in old(bindings) && old(bindings)[uid].node == node
                          then old(bindings) - {uid} else old(bindings)
      ensures status == WriteStatus(epochs, old(bindings), Unbind, node, epoch, uid)
      ensures bindings == Written(epochs, old(bindings), Unbind, node, epoch, uid, now)
    {
      if node !in epochs { return EpochMissing; }
      if epochs[node].epoch != epoch { return EpochConflict; }
      if uid in bindings && bindings[uid].node == node {
        bindings := bindings - {uid};
      }
      return Done;
    }
  }
}
