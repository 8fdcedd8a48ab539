// The queue of aalqueue.h on the nodes of kosal.h. An item is named by the
// list head embedded in it; lost says that the wait for the queue's semaphore
// is interrupted.
module AalQueue {
  import opened KosalList
  import opened KosalSem
  import opened KosalWalk
  import opened QueueSpec

  method MoveToTail(space: ListSpace, item: ListHead, h: ListHead)
    requires space.Valid() && Initialised(space.lists, item) && h in space.lists && h != item
    modifies space, space.nodes
    ensures space.Valid() && space.nodes == old(space.nodes)
    ensures space.lists == AddedTail(Deleted(old(space.lists), item)[item := []], item, h)
  {
    ghost var g, k := space.Position(item);
    space.DelInit(item);
    space.Neighbours(h);
    space.AddTail(item, h);
  }

  class Queue {
    const m_sem: Mutex
    const m_queue: ListHead

    constructor (obj: nat, offset: nat)
      ensures fresh(m_sem) && fresh(m_queue) && !m_sem.taken
      ensures m_queue.next == m_queue.prev == m_queue
    {
      m_sem := new Mutex();
      m_queue := new ListHead(obj, offset);
    }

    method Enqueue(space: ListSpace, item: ListHead, lost: bool)
      requires space.Valid() && item in space.nodes && !m_sem.taken
      requires Allowed(space.lists, {m_queue}, Call(Op.Enqueue(item, m_queue), lost, false))
      modifies space, space.nodes, m_sem
      ensures space.Valid() && space.nodes == old(space.nodes) && !m_sem.taken
      ensures space.lists == Effect(old(space.lists), {m_queue}, Call(Op.Enqueue(item, m_queue), lost, false))
    {
      var failed := m_sem.GetAlertable(lost);
      if failed {
        return;
      }
      space.Neighbours(m_queue);
      space.AddTail(item, m_queue);
      m_sem.Put();
    }

    method PushQueue(space: ListSpace, item: ListHead, lost: bool)
      requires space.Valid() && item in space.nodes && !m_sem.taken
      requires Allowed(space.lists, {m_queue}, Call(Op.Push(item, m_queue), lost, false))
      modifies space, space.nodes, m_sem
      ensures space.Valid() && space.nodes == old(space.nodes) && !m_sem.taken
      ensures space.lists == Effect(old(space.lists), {m_queue}, Call(Op.Push(item, m_queue), lost, false))
    {
      var failed := m_sem.GetAlertable(lost);
      if failed {
        return;
      }
      space.Neighbours(m_queue);
      space.AddHead(item, m_queue);
      m_sem.Put();
    }

    method Dequeue(space: ListSpace, lost: bool) returns (item: ListHead?)
      requires space.Valid() && m_queue in space.lists && !m_sem.taken
      modifies space, space.nodes, m_sem
      ensures space.Valid() && space.nodes == old(space.nodes) && !m_sem.taken
      ensures space.lists == Effect(old(space.lists), {m_queue}, Call(Op.Dequeue(m_queue), lost, false))
      ensures item == SeqAnswer(old(space.lists)[m_queue], Call(Op.Dequeue(m_queue), lost, false))
    {
      var failed := m_sem.GetAlertable(lost);
      if failed {
        return null;
      }
      space.Neighbours(m_queue);
      if m_queue.next == m_queue {
        m_sem.Put();
        return null;
      }
      item := m_queue.next;
      space.NearNodes(item);
      space.DelInit(item);
      m_sem.Put();
    }

    method SwapQueue(space: ListSpace, item: ListHead, to: Queue, lost: bool, lostTo: bool)
      requires space.Valid() && !m_sem.taken && !to.m_sem.taken && m_sem != to.m_sem
      requires Allowed(space.lists, {m_queue, to.m_queue}, Call(Op.Swap(item, m_queue, to.m_queue), lost, lostTo))
      modifies space, space.nodes, m_sem, to.m_sem
      ensures space.Valid() && space.nodes == old(space.nodes) && !m_sem.taken && !to.m_sem.taken
      ensures space.lists == Effect(old(space.lists), {m_queue, to.m_queue},
                                    Call(Op.Swap(item, m_queue, to.m_queue), lost, lostTo))
    {
      var failed := m_sem.GetAlertable(lost);
      if failed {
        return;
      }
      failed := to.m_sem.GetAlertable(lostTo);
      if failed {
        m_sem.Put();
        return;
      }
      MoveToTail(space, item, to.m_queue);
      label moved:
      to.m_sem.Put();
      m_sem.Put();
      assert unchanged@moved(space, space.nodes);
    }

    method Peek(space: ListSpace, lost: bool) returns (item: ListHead?)
      requires space.Valid() && m_queue in space.lists && !m_sem.taken
      modifies m_sem
      ensures !m_sem.taken
      ensures item == SeqAnswer(space.lists[m_queue], Call(Op.Peek(m_queue), lost, false))
    {
      var failed := m_sem.GetAlertable(lost);
      if failed {
        return null;
      }
      space.Neighbours(m_queue);
      if m_queue.next == m_queue {
        m_sem.Put();
        return null;
      }
      item := m_queue.next;
      m_sem.Put();
    }

    // The comment above the original promises "empty" when the lock is lost;
    // its code answers 0, "not empty".
    method Empty(space: ListSpace, lost: bool) returns (answer: int)
      requires space.Valid() && m_queue in space.lists && !m_sem.taken
      modifies m_sem
      ensures !m_sem.taken
      ensures answer != 0 <==> !lost && space.lists[m_queue] == []
    {
      var failed := m_sem.GetAlertable(lost);
      if failed {
        return 0;
      }
      space.Neighbours(m_queue);
      assert space.lists[m_queue] != [] ==> space.lists[m_queue][0] != m_queue;
      answer := if m_queue.next == m_queue then 1 else 0;
      m_sem.Put();
    }

    method Find(space: ListSpace, item: ListHead, lost: bool) returns (result: ListHead?)
      requires space.Valid() && m_queue in space.lists && !m_sem.taken
      modifies m_sem
      ensures !m_sem.taken
      ensures result == SeqAnswer(space.lists[m_queue], Call(Op.Find(item, m_queue), lost, false))
    {
      result := null;
      var failed := m_sem.GetAlertable(lost);
      if failed {
        return;
      }
      ghost var s, k := space.lists[m_queue], 0;
      space.Neighbours(m_queue);
      var pos := m_queue.next;
      while pos != m_queue
        invariant 0 <= k <= |s| && pos == (if k < |s| then s[k] else m_queue)
        invariant item !in s[..k]
        decreases |s| - k
      {
        if pos == item {
          result := pos;
          break;
        }
        space.NextAt(m_queue, k);
        assert s[..k + 1] == s[..k] + [s[k]];
        pos := pos.next;
        k := k + 1;
      }
      m_sem.Put();
    }

    // Takes the item off whatever list it is on; only this queue is locked.
    method Remove(space: ListSpace, item: ListHead, lost: bool)
      requires space.Valid() && !m_sem.taken
      requires Allowed(space.lists, {m_queue}, Call(Op.Remove(item, m_queue), lost, false))
      modifies space, space.nodes, m_sem
      ensures space.Valid() && space.nodes == old(space.nodes) && !m_sem.taken
      ensures space.lists == Effect(old(space.lists), {m_queue}, Call(Op.Remove(item, m_queue), lost, false))
    {
      var failed := m_sem.GetAlertable(lost);
      if failed {
        return;
      }
      ghost var h, k := space.Position(item);
      space.DelInit(item);
      m_sem.Put();
    }

    method DoForEachItem(space: ListSpace, cb: Callback, lost: bool) returns (stop: ListHead?, ghost seen: seq<ListHead>)
      requires space.Valid() && m_queue in space.lists && !m_sem.taken
      modifies space, space.nodes, m_sem
      ensures space.Valid() && space.nodes == old(space.nodes) && !m_sem.taken
      ensures lost ==> stop == null && seen == [] && space.lists == old(space.lists)
      ensures !lost ==> SeenUpToStop(old(space.lists)[m_queue], seen, stop, cb)
      ensures !lost ==> Walked(old(space.lists), space.lists, m_queue, |seen|, cb)
    {
      var failed := m_sem.GetAlertable(lost);
      if failed {
        return null, [];
      }
      stop, seen := ForEachSafe(space, m_queue, cb);
      m_sem.Put();
    }
  }
}
