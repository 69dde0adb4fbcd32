/**
 Identifiers and byte strings shared by every component (src/types.rs), and the two
 failure datatypes.  Identifiers are only ever compared for equality, except that a shard
 id is also the position of the shard in the code word.
 */
module Types {
  type Byte = bv8
  type Bytes = seq<Byte>

  type Vid = nat
  type Sid = nat
  type PeerId = nat
  type Hash = nat

  /** `DATA_SHARDS_COUNT`: how many shards are enough to rebuild the data. */
  const K: nat := 2

  datatype Option<+T> = None | Some(value: T)

  datatype Result<+T, +E> = Ok(value: T) | Err(error: E)

  lemma Regroup<A>(a: seq<A>, b: seq<A>, c: seq<A>)
    ensures a + (b + c) == a + b + c
  {
  }

  /** Things that come in are lost, handled or queued, in this order; nothing is lost once some are handled. */
  lemma MovedAlong<A>(lost: seq<A>, handled: seq<A>, queued: seq<A>, come: seq<A>,
                      lost': seq<A>, handled': seq<A>, queued': seq<A>)
    requires queued + come == lost' + handled' + queued' && (lost' != [] ==> handled == [])
    ensures lost + handled + queued + come == (lost + lost') + (handled + handled') + queued'
  {
    assert lost + handled + queued + come == lost + handled + (queued + come);
    if lost' == [] {
      assert lost' + handled' + queued' == handled' + queued' && lost + lost' == lost;
      assert lost + handled + (handled' + queued') == lost + (handled + handled') + queued';
    } else {
      assert lost + handled == lost && handled + handled' == handled';
      assert lost + (lost' + handled' + queued') == lost + lost' + handled' + queued';
    }
  }

  function Lookup<T>(m: map<Vid, T>, id: Vid): Option<T> {
    if id in m then Some(m[id]) else None
  }
}
