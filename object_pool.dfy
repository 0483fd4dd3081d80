/**
 * ObjectPool<T>: a FIFO queue of inactive list items and the list of items
 * currently handed out. Unity's Instantiate becomes allocation of a fresh
 * PoolItem, and SetActive a flag on it.
 */
module ObjectPooling {
  import opened Seqs

  /** A pooled scene object; only its active flag matters to the pool. */
  class PoolItem {
    var isActive: bool

    /** Object.Instantiate: a new object, active until the pool deactivates it. */
    constructor ()
      ensures isActive
    {
      isActive := true;
    }
  }

  class ObjectPool {
    /** The queue of parked objects; the front is pool[0]. */
    var pool: seq<PoolItem>
    /** The objects handed out by Get, in the order they were handed out. */
    var activeObjects: seq<PoolItem>

    /** Fills the queue with initialSize new, inactive objects (none when initialSize <= 0). */
    constructor (initialSize: int)
      ensures |pool| == if initialSize < 0 then 0 else initialSize
      ensures activeObjects == []
      ensures forall k :: 0 <= k < |pool| ==> fresh(pool[k]) && !pool[k].isActive
    {
      pool := [];
      activeObjects := [];
      new;
      var i := 0;
      while i < initialSize
        invariant 0 <= i && |pool| == i
        invariant if initialSize < 0 then i == 0 else i <= initialSize
        invariant activeObjects == []
        invariant forall k :: 0 <= k < |pool| ==> fresh(pool[k]) && !pool[k].isActive
      {
        var _ := CreateNewObject();
        i := i + 1;
      }
    }

    /** A new inactive object, enqueued at the back and returned. */
    method CreateNewObject() returns (obj: PoolItem)
      modifies this`pool
      ensures fresh(obj) && !obj.isActive
      ensures pool == old(pool) + [obj]
    {
      obj := new PoolItem();
      obj.isActive := false;
      pool := pool + [obj];
    }

    /**
     * Takes the front of the queue (creating one first if the queue is empty),
     * activates it and records it as active.
     */
    method Get() returns (obj: PoolItem)
      modifies this`pool, this`activeObjects, if pool == [] then [] else [pool[0]]
      ensures old(pool) != [] ==> obj == old(pool)[0] && pool == old(pool)[1..]
      ensures old(pool) == [] ==> fresh(obj) && pool == []
      ensures obj.isActive
      ensures activeObjects == old(activeObjects) + [obj]
      ensures |pool| + |activeObjects| == |old(pool)| + |old(activeObjects)| + (if old(pool) == [] then 1 else 0)
    {
      if |pool| == 0 {
        var _ := CreateNewObject();
      }
      obj := pool[0];
      pool := pool[1..];
      obj.isActive := true;
      activeObjects := activeObjects + [obj];
    }

    /**
     * Deactivates obj, drops its first occurrence from the active list and
     * enqueues it. There is no membership test: an object that was not
     * active is enqueued all the same. Null is ignored.
     */
    method Return(obj: PoolItem?)
      modifies this`pool, this`activeObjects, obj
      ensures obj == null ==> pool == old(pool) && activeObjects == old(activeObjects)
      ensures obj != null ==>
        var item: PoolItem := obj;
        && !item.isActive
        && activeObjects == RemoveFirst(old(activeObjects), item)
        && pool == old(pool) + [item]
      ensures obj != null && obj in old(activeObjects) ==>
        |pool| + |activeObjects| == |old(pool)| + |old(activeObjects)|
    {
      if obj == null {
        return;
      }
      var item: PoolItem := obj;
      item.isActive := false;
      activeObjects := RemoveFirst(activeObjects, item);
      pool := pool + [item];
    }

    /**
     * Returns every active object, in active-list order, through Return,
     * iterating over a copy of the list; then clears the list.
     */
    method ReturnAll()
      modifies this`pool, this`activeObjects, activeObjects
      ensures activeObjects == []
      ensures pool == old(pool) + old(activeObjects)
      ensures forall o :: o in old(activeObjects) ==> !o.isActive
    {
      var activeObjectsCopy := activeObjects;
      for i := 0 to |activeObjectsCopy|
        invariant activeObjects == activeObjectsCopy[i..]
        invariant pool == old(pool) + activeObjectsCopy[..i]
        invariant forall k :: 0 <= k < i ==> !activeObjectsCopy[k].isActive
      {
        var obj := activeObjectsCopy[i];
        assert activeObjects[0] == obj;
        Return(obj);
        assert activeObjectsCopy[..i + 1] == activeObjectsCopy[..i] + [obj];
      }
      activeObjects := [];
    }

    /** A copy of the active list. */
    method GetActiveObjects() returns (r: seq<PoolItem>)
      ensures r == activeObjects
    {
      r := activeObjects;
    }
  }

  /**
   * The bookkeeping behind the pool's size: returning an object that is
   * active moves it from one list to the other, so the total is unchanged;
   * returning one that is not active adds a second reference to the queue.
   */
  lemma ReturnMovesOneObject(pool: seq<PoolItem>, active: seq<PoolItem>, obj: PoolItem)
    ensures obj in active ==> |pool + [obj]| + |RemoveFirst(active, obj)| == |pool| + |active|
    ensures obj !in active ==> |pool + [obj]| + |RemoveFirst(active, obj)| == |pool| + |active| + 1
  {
  }

  /** Returning the head of the active list removes exactly that entry. */
  lemma ReturnHeadRemovesHead(active: seq<PoolItem>)
    requires active != []
    ensures RemoveFirst(active, active[0]) == active[1..]
  {
  }
}
