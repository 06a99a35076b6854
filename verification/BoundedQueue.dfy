/** The bounded queue every edge, graph input and executor stream goes through. */
module BoundedQueues {

  datatype QueuePolicy = Block | DropOldest | DropNewest

  /** The outcome of one locked attempt: `Waiting` is a producer parked on the not-full condition. */
  datatype PushStatus = Accepted | Refused | Waiting

  datatype QueueState<T> = QueueState(items: seq<T>, closed: bool)

  /** `displaced` is what the attempt dropped: the front of the queue, or the value itself. */
  datatype PushResult<T> = PushResult(queue: QueueState<T>, status: PushStatus, displaced: seq<T>)

  function Displacing<T>(q: QueueState<T>, value: T): PushResult<T>
    requires q.items != []
  {
    PushResult(q.(items := q.items[1..] + [value]), Accepted, [q.items[0]])
  }

  function PushData<T>(capacity: nat, policy: QueuePolicy, q: QueueState<T>, value: T): PushResult<T> {
    if capacity == 0 || q.closed then PushResult(q, Refused, [])
    else if |q.items| < capacity then PushResult(q.(items := q.items + [value]), Accepted, [])
    else
      match policy
      case Block => PushResult(q, Waiting, [])
      case DropNewest => PushResult(q, Refused, [value])
      case DropOldest => Displacing(q, value)
  }

  /** Control packets never wait and are never the ones refused for lack of room. */
  function PushControl<T>(capacity: nat, q: QueueState<T>, value: T): PushResult<T> {
    if capacity == 0 || q.closed then PushResult(q, Refused, [])
    else if |q.items| < capacity then PushResult(q.(items := q.items + [value]), Accepted, [])
    else Displacing(q, value)
  }

  class BoundedQueue<T> {
    const capacity: nat
    const policy: QueuePolicy
    var items: seq<T>
    var closed: bool

    constructor (capacity: nat, policy: QueuePolicy)
      ensures this.capacity == capacity && this.policy == policy && View() == QueueState([], false) && Valid()
    {
      this.capacity, this.policy := capacity, policy;
      items, closed := [], false;
    }

    ghost function View(): QueueState<T>
      reads this
    {
      QueueState(items, closed)
    }

    ghost predicate Valid()
      reads this
    {
      |items| <= capacity
    }

    /** One pass through the locked region of a data push. */
    method Push(value: T) returns (status: PushStatus, dropped: bool)
      requires Valid()
      modifies this`items
      ensures Valid()
      ensures
        var r := PushData(capacity, policy, old(View()), value);
        View() == r.queue && status == r.status && (dropped <==> r.displaced != [])
    {
      dropped := false;
      if capacity == 0 || closed {
        return Refused, false;
      }
      if policy == Block {
        if |items| >= capacity {
          return Waiting, false;
        }
      } else if |items| >= capacity {
        if policy == DropNewest {
          return Refused, true;
        }
        items := items[1..];
        dropped := true;
      }
      items := items + [value];
      status := Accepted;
    }

    method PushControlPacket(value: T) returns (status: PushStatus, dropped: bool)
      requires Valid()
      modifies this`items
      ensures Valid()
      ensures
        var r := PushControl(capacity, old(View()), value);
        View() == r.queue && status == r.status && (dropped <==> r.displaced != [])
    {
      dropped := false;
      if capacity == 0 || closed {
        return Refused, false;
      }
      if |items| >= capacity {
        items := items[1..];
        dropped := true;
      }
      items := items + [value];
      status := Accepted;
    }

    method TryPop() returns (popped: seq<T>)
      requires Valid()
      modifies this`items
      ensures Valid()
      ensures popped + items == old(items) && |popped| == if old(items) == [] then 0 else 1
    {
      if items == [] {
        return [];
      }
      popped := [items[0]];
      items := items[1..];
    }

    method Close()
      requires Valid()
      modifies this`closed
      ensures Valid() && closed && items == old(items)
    {
      closed := true;
    }
  }
}
