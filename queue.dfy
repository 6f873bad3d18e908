/** The bounded circular FIFO every buffering stage uses: a fixed array of
    SIZE slots, a head index, a fill count and a limit no larger than SIZE. */
module Queues {

  class Queue<T> {
    /** The storage; its length is the template parameter SIZE. */
    const qArray: array<T>
    const size: int
    var qHead: int
    var qSize: int
    var qLimit: int

    ghost predicate Valid()
      reads this
    {
      && size == qArray.Length >= 1
      && 1 <= qLimit <= size
      && 0 <= qHead < qLimit
      && 0 <= qSize <= qLimit
    }

    /** qMap: the slot of the index-th element, wrapping at the limit once. */
    function QMap(index: int): (r: int)
      reads this
      requires Valid()
      requires 0 <= index <= qLimit
      ensures r == (qHead + index) % qLimit
      ensures 0 <= r < qArray.Length
    {
      if index + qHead >= qLimit then index + qHead - qLimit else index + qHead
    }

    /** The queued items, oldest first. */
    ghost function Contents(): (s: seq<T>)
      reads this, qArray
      requires Valid()
      ensures |s| == qSize
    {
      seq(qSize, i requires 0 <= i < qSize && Valid() reads this, qArray => qArray[QMap(i)])
    }

    /** `Queue(queue_limit)`: an empty queue whose limit is the smaller of
        the requested limit and SIZE; every slot holds `init`. */
    constructor (size: int, limit: int, init: T)
      requires size >= 1 && limit >= 1
      ensures Valid() && fresh(qArray)
      ensures this.size == size && qLimit == if limit < size then limit else size
      ensures Contents() == []
    {
      qArray := new T[size](_ => init);
      this.size := size;
      qHead := 0;
      qSize := 0;
      qLimit := size;
      new;
      SetLimit(limit);
    }

    /** SetLimit: clamps the limit to SIZE and drops the items beyond it. */
    method SetLimit(limit: int)
      requires Valid() && qHead == 0 && limit >= 1
      modifies this
      ensures Valid()
      ensures qLimit == if limit < size then limit else size
      ensures qHead == 0
      ensures Contents() == if old(qSize) > qLimit then old(Contents())[..qLimit] else old(Contents())
    {
      qLimit := if limit < size then limit else size;
      if qSize > qLimit {
        qSize := qLimit;
      }
    }

    predicate IsEmpty()
      reads this
      requires Valid()
      ensures IsEmpty() <==> Contents() == []
    {
      qSize <= 0
    }

    predicate IsFull()
      reads this
      requires Valid()
      ensures IsFull() <==> |Contents()| == qLimit
    {
      qSize >= qLimit
    }

    function GetSize(): (n: int)
      reads this
      requires Valid()
      ensures n == |Contents()|
    {
      qSize
    }

    method Clear()
      requires Valid()
      modifies this
      ensures Valid() && qHead == old(qHead) && qLimit == old(qLimit)
      ensures Contents() == []
    {
      qSize := 0;
    }

    /** Peek(index): the index-th item; past the fill count it reads
        whatever the slot last held. */
    function Peek(index: int): (r: T)
      reads this, qArray
      requires Valid() && 0 <= index < qLimit
      ensures index < qSize ==> r == Contents()[index]
    {
      qArray[QMap(index)]
    }

    /** Add: appends the item unless the queue is full, in which case the
        item is dropped. */
    method Add(item: T)
      requires Valid()
      modifies this, qArray
      ensures Valid() && qLimit == old(qLimit)
      ensures old(qSize) < qLimit ==> Contents() == old(Contents()) + [item]
      ensures old(qSize) >= qLimit ==> Contents() == old(Contents()) && unchanged(this, qArray)
    {
      if qSize < qLimit {
        ghost var before := Contents();
        var slot := QMap(qSize);
        qArray[slot] := item;
        forall i | 0 <= i < qSize ensures QMap(i) != slot {
          assert QMap(i) == (qHead + i) % qLimit;
        }
        qSize := qSize + 1;
        assert Contents() == before + [item] by {
          forall i | 0 <= i < qSize ensures Contents()[i] == (before + [item])[i] {
            if i < qSize - 1 {
              assert QMap(i) != slot;
            }
          }
        }
      }
    }

    /** Get: removes and returns the oldest item; on an empty queue it
        returns the item stored at the head slot and changes nothing. */
    method Get() returns (r: T)
      requires Valid()
      modifies this
      ensures Valid() && qLimit == old(qLimit)
      ensures old(qSize) > 0 ==> r == old(Contents())[0] && Contents() == old(Contents())[1..]
      ensures old(qSize) <= 0 ==> r == qArray[qHead] && unchanged(this)
    {
      var index := qHead;
      if qSize > 0 {
        ghost var before := Contents();
        qHead := QMap(1);
        qSize := qSize - 1;
        forall i | 0 <= i < qSize ensures Contents()[i] == before[i + 1] {
          assert qArray[QMap(i)] == before[i + 1] by {
            assert (old(qHead) + 1) % qLimit == qHead;
            assert QMap(i) == (qHead + i) % qLimit;
            assert (qHead + i) % qLimit == (old(qHead) + i + 1) % qLimit;
          }
        }
      }
      r := qArray[index];
    }

    /** Set(item, index): overwrites the index-th item when there is one. */
    method Set(item: T, index: int)
      requires Valid() && index >= 0
      modifies qArray
      ensures Valid()
      ensures index < qSize ==> Contents() == old(Contents())[index := item]
      ensures index >= qSize ==> unchanged(qArray)
    {
      if index < qSize {
        ghost var before := Contents();
        var slot := QMap(index);
        qArray[slot] := item;
        forall i | 0 <= i < qSize && i != index ensures QMap(i) != slot {
          assert QMap(i) == (qHead + i) % qLimit;
        }
        assert Contents() == before[index := item] by {
          forall i | 0 <= i < qSize ensures Contents()[i] == before[index := item][i] {
            if i != index {
              assert QMap(i) != slot;
            }
          }
        }
      }
    }
  }
}
