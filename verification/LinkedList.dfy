/**
 The doubly linked list with a cached cursor (LinkedList.c), and the relinking that puts restored messages
 back in the order they were issued in (MQTTPersistence.c).
 */
module LinkedList {

  /** A pointer to whatever the list holds; callbacks look behind it. */
  type Content = int

  class Element {
    const content: Content
    var prev: Element?
    var next: Element?

    constructor (content: Content)
      ensures this.content == content && prev == null && next == null
    {
      this.content, prev, next := content, null, null;
    }
  }

  /** Element i, or null beyond either end. */
  function At(s: seq<Element>, i: int): Element? {
    if 0 <= i < |s| then s[i] else null
  }

  ghost predicate Distinct(s: seq<Element>) {
    forall i, j :: 0 <= i < j < |s| ==> s[i] != s[j]
  }

  /** The links agree with the sequence, in both directions. */
  ghost predicate Linked(s: seq<Element>)
    reads s
  {
    && (forall i {:trigger s[i].prev} :: 0 <= i < |s| ==> s[i].prev == At(s, i - 1))
    && (forall i {:trigger s[i].next} :: 0 <= i < |s| ==> s[i].next == At(s, i + 1))
  }

  function Contents(s: seq<Element>): (r: seq<Content>)
    ensures |r| == |s| && forall i :: 0 <= i < |s| ==> r[i] == s[i].content
  {
    seq(|s|, i requires 0 <= i < |s| => s[i].content)
  }

  function Removed<T>(s: seq<T>, i: nat): seq<T>
    requires i < |s|
  {
    s[..i] + s[i + 1..]
  }

  function Inserted<T>(s: seq<T>, i: nat, x: T): seq<T>
    requires i <= |s|
  {
    s[..i] + [x] + s[i..]
  }

  /** Where an element is. */
  ghost predicate IsAt(s: seq<Element>, e: Element?, i: nat) {
    i < |s| && s[i] == e
  }

  lemma InsertedIs<T>(s: seq<T>, i: nat, x: T)
    requires i <= |s|
    ensures |Inserted(s, i, x)| == |s| + 1
    ensures forall j :: 0 <= j <= |s| ==> Inserted(s, i, x)[j] == if j < i then s[j] else if j == i then x else s[j - 1]
  {
  }

  lemma InsertedContents(s: seq<Element>, i: nat, x: Element)
    requires i <= |s|
    ensures Contents(Inserted(s, i, x)) == Inserted(Contents(s), i, x.content)
  {
    InsertedIs(s, i, x);
    InsertedIs(Contents(s), i, x.content);
    hide Inserted;
  }

  lemma DistinctInserted(s: seq<Element>, i: nat, x: Element)
    requires i <= |s| && Distinct(s) && x !in s
    ensures Distinct(Inserted(s, i, x))
  {
    InsertedIs(s, i, x);
    hide Inserted;
  }

  /** Linking x in changes the two links that lead across the place it goes to. */
  lemma LinkedInserted(s: seq<Element>, i: nat, x: Element)
    requires i <= |s| && x.prev == At(s, i - 1) && x.next == At(s, i)
    requires forall j {:trigger s[j].prev} :: 0 <= j < |s| ==> s[j].prev == if j == i then x else At(s, j - 1)
    requires forall j {:trigger s[j].next} :: 0 <= j < |s| ==> s[j].next == if j == i - 1 then x else At(s, j + 1)
    ensures Linked(Inserted(s, i, x))
  {
    InsertedIs(s, i, x);
    hide Inserted;
  }

  lemma RemovedIs<T>(s: seq<T>, i: nat)
    requires i < |s|
    ensures |Removed(s, i)| == |s| - 1
    ensures forall j :: 0 <= j < |s| - 1 ==> Removed(s, i)[j] == if j < i then s[j] else s[j + 1]
  {
  }

  lemma RemovedContents(s: seq<Element>, i: nat)
    requires i < |s|
    ensures Contents(Removed(s, i)) == Removed(Contents(s), i)
  {
    RemovedIs(s, i);
    RemovedIs(Contents(s), i);
    hide Removed;
  }

  lemma DistinctRemoved(s: seq<Element>, i: nat)
    requires i < |s| && Distinct(s)
    ensures Distinct(Removed(s, i)) && s[i] !in Removed(s, i)
    ensures forall e :: e in s && e != s[i] ==> e in Removed(s, i)
  {
    RemovedIs(s, i);
    forall e | e in s && e != s[i] ensures e in Removed(s, i) {
      var j :| 0 <= j < |s| && s[j] == e;
      assert Removed(s, i)[if j < i then j else j - 1] == e;
    }
    hide Removed;
  }

  lemma LinkedRemoved(s: seq<Element>, i: nat)
    requires i < |s|
    requires forall j {:trigger s[j].prev} :: 0 <= j < |s| && j != i ==>
               s[j].prev == if j == i + 1 then At(s, i - 1) else At(s, j - 1)
    requires forall j {:trigger s[j].next} :: 0 <= j < |s| && j != i ==>
               s[j].next == if j == i - 1 then At(s, i + 1) else At(s, j + 1)
    ensures Linked(Removed(s, i))
  {
    RemovedIs(s, i);
    hide Removed;
  }

  function Rotated<T>(s: seq<T>, w: nat): seq<T>
    requires w <= |s|
  {
    s[w..] + s[..w]
  }

  lemma RotatedIs<T>(s: seq<T>, w: nat)
    requires w <= |s|
    ensures |Rotated(s, w)| == |s|
    ensures forall j :: 0 <= j < |s| ==> Rotated(s, w)[j] == if j < |s| - w then s[j + w] else s[j + w - |s|]
    ensures forall e :: e in s ==> e in Rotated(s, w)
  {
    assert s == s[..w] + s[w..];
  }

  lemma DistinctRotated(s: seq<Element>, w: nat)
    requires w <= |s| && Distinct(s)
    ensures Distinct(Rotated(s, w))
  {
    RotatedIs(s, w);
    hide Rotated;
  }

  /** Joining the ends and cutting the ring before element w. */
  lemma LinkedRotated(s: seq<Element>, w: nat)
    requires 0 < w < |s|
    requires forall j {:trigger s[j].prev} :: 0 <= j < |s| ==>
               s[j].prev == if j == w then null else if j == 0 then s[|s| - 1] else s[j - 1]
    requires forall j {:trigger s[j].next} :: 0 <= j < |s| ==>
               s[j].next == if j == w - 1 then null else if j == |s| - 1 then s[0] else s[j + 1]
    ensures Linked(Rotated(s, w))
  {
    RotatedIs(s, w);
    hide Rotated;
  }

  lemma RotatedContents(s: seq<Element>, w: nat)
    requires w <= |s|
    ensures Contents(Rotated(s, w)) == Rotated(Contents(s), w)
  {
    RotatedIs(s, w);
    RotatedIs(Contents(s), w);
    hide Rotated;
  }

  class List {
    var first: Element?
    var last: Element?
    var current: Element?    // the last item found
    var count: nat
    var size: nat
    ghost var elements: seq<Element>

    ghost predicate Valid()
      reads this, elements
    {
      && Distinct(elements) && Linked(elements)
      && first == At(elements, 0) && last == At(elements, |elements| - 1)
      && count == |elements|
      && (current != null ==> current in elements)
    }

    constructor ()
      ensures Valid() && elements == []
    {
      first, last, current, count, size, elements := null, null, null, 0, 0, [];
      new;
      assert At(elements, 0) == null && At(elements, -1) == null;
    }

    /** The item after pos, or the first one. */
    method ListNextElement(pos: Element?, ghost i: nat) returns (next: Element?)
      requires Valid()
      requires if pos == null then i == 0 else i > 0 && IsAt(elements, pos, i - 1)
      ensures next == At(elements, i)
    {
      next := if pos == null then first else pos.next;
    }

    /** The list once the links, the ends and the count have been changed to take in x. */
    ghost method LinkIn(i: nat, x: Element)
      requires i <= |elements| && Distinct(elements) && x !in elements
      requires x.prev == At(elements, i - 1) && x.next == At(elements, i)
      requires forall j {:trigger elements[j].prev} :: 0 <= j < |elements| ==> elements[j].prev == if j == i then x else At(elements, j - 1)
      requires forall j {:trigger elements[j].next} :: 0 <= j < |elements| ==> elements[j].next == if j == i - 1 then x else At(elements, j + 1)
      requires first == if i == 0 then x else At(elements, 0)
      requires last == if i == |elements| then x else At(elements, |elements| - 1)
      requires count == |elements| + 1 && (current != null ==> current in elements)
      modifies this`elements
      ensures Valid() && elements == Inserted(old(elements), i, x)
    {
      DistinctInserted(elements, i, x);
      LinkedInserted(elements, i, x);
      InsertedIs(elements, i, x);
      ghost var s := elements;
      elements := Inserted(elements, i, x);
      assert forall j :: 0 <= j < |s| ==> s[j] == elements[if j < i then j else j + 1];
      hide Inserted, Distinct, Linked;
    }

    /** Puts an element that is not in the list at its end. */
    method ListAppendNoMalloc(newel: Element, size: nat)
      requires Valid() && newel !in elements
      modifies this, elements, newel
      ensures Valid() && elements == Inserted(old(elements), old(|elements|), newel)
      ensures current == old(current) && this.size == old(this.size) + size
    {
      hide Inserted, Contents;
      ghost var n := |elements|;
      newel.next := null;
      newel.prev := last;
      if first == null {
        first := newel;
      } else {
        last.next := newel;
      }
      last := newel;
      count := count + 1;
      this.size := this.size + size;
      LinkIn(n, newel);
    }

    method ListAppend(content: Content, size: nat) returns (newel: Element)
      requires Valid()
      modifies this, elements
      ensures Valid() && fresh(newel)
      ensures elements == Inserted(old(elements), old(|elements|), newel)
      ensures Contents(elements) == Inserted(old(Contents(elements)), old(|elements|), content)
      ensures current == old(current) && this.size == old(this.size) + size
    {
      newel := new Element(content);
      InsertedContents(elements, |elements|, newel);
      hide Inserted, Contents;
      ListAppendNoMalloc(newel, size);
    }

    /** One link changed: no other element of the list is affected. */
    method SetPrev(e: Element, to: Element?, ghost i: nat)
      requires Distinct(elements) && IsAt(elements, e, i)
      modifies e`prev
      ensures forall j {:trigger elements[j].prev} :: 0 <= j < |elements| ==> elements[j].prev == if j == i then to else old(elements[j].prev)
    {
      e.prev := to;
    }

    method SetNext(e: Element, to: Element?, ghost i: nat)
      requires Distinct(elements) && IsAt(elements, e, i)
      modifies e`next
      ensures forall j {:trigger elements[j].next} :: 0 <= j < |elements| ==> elements[j].next == if j == i then to else old(elements[j].next)
    {
      e.next := to;
    }

    /** Puts an element that is not in the list before element i of it. */
    method LinkBefore(newel: Element, index: Element, size: nat, ghost i: nat)
      requires Valid() && newel !in elements && IsAt(elements, index, i)
      modifies this, elements, newel
      ensures Valid() && elements == Inserted(old(elements), i, newel)
      ensures current == old(current) && this.size == old(this.size) + size
    {
      hide Inserted, Contents;
      ghost var s := elements;
      assert index.prev == At(s, i - 1);
      newel.next := index;
      newel.prev := index.prev;
      SetPrev(index, newel, i);
      if newel.prev != null {
        SetNext(newel.prev, newel, i - 1);
      } else {
        first := newel;
      }
      count := count + 1;
      this.size := this.size + size;
      LinkIn(i, newel);
    }

    method ListInsert(content: Content, size: nat, index: Element?, ghost i: nat) returns (newel: Element)
      requires Valid()
      requires if index == null then i == |elements| else IsAt(elements, index, i)
      modifies this, elements
      ensures Valid() && fresh(newel)
      ensures elements == Inserted(old(elements), i, newel)
      ensures Contents(elements) == Inserted(old(Contents(elements)), i, content)
      ensures current == old(current) && this.size == old(this.size) + size
    {
      newel := new Element(content);
      InsertedContents(elements, i, newel);
      hide Inserted, Contents;
      if index == null {
        ListAppendNoMalloc(newel, size);
      } else {
        LinkBefore(newel, index, size, i);
      }
    }
  
    // ----- finding

    /** The item of the cursor if it matches, or else the first that does; the cursor moves to it. */
    method ListFindItem(p: Content -> bool) returns (rc: Element?, ghost i: nat)
      requires Valid()
      modifies this`current
      ensures Valid()
      ensures rc == null <==> forall j :: 0 <= j < |elements| ==> !p(elements[j].content)
      ensures rc != null ==> IsAt(elements, rc, i) && p(rc.content)
      ensures rc != null ==> rc == old(current) || forall j :: 0 <= j < i ==> !p(elements[j].content)
      ensures old(current) != null && p(old(current.content)) ==> rc == old(current)
      ensures current == if rc == null then old(current) else rc
    {
      i := 0;
      if current != null && p(current.content) {
        rc := current;
        i :| 0 <= i < |elements| && elements[i] == rc;
      } else {
        var cur := ListNextElement(null, 0);
        while cur != null
          invariant cur == At(elements, i) && current == old(current)
          invariant i <= |elements| && forall j :: 0 <= j < i ==> !p(elements[j].content)
          decreases |elements| - i
        {
          if p(cur.content) {
            break;
          }
          cur := ListNextElement(cur, i + 1);
          i := i + 1;
        }
        rc := cur;
        if rc != null {
          current := rc;
        }
      }
    }

    // ----- removing

    /** The list once the links, the ends, the count and the cursor have been changed to leave out element i. */
    ghost method LinkOut(i: nat)
      requires i < |elements| && Distinct(elements)
      requires forall j {:trigger elements[j].prev} :: 0 <= j < |elements| && j != i ==>
                 elements[j].prev == if j == i + 1 then At(elements, i - 1) else At(elements, j - 1)
      requires forall j {:trigger elements[j].next} :: 0 <= j < |elements| && j != i ==>
                 elements[j].next == if j == i - 1 then At(elements, i + 1) else At(elements, j + 1)
      requires first == At(elements, if i == 0 then 1 else 0)
      requires last == At(elements, if i == |elements| - 1 then i - 1 else |elements| - 1)
      requires count == |elements| - 1
      requires current != null ==> current in elements && current != elements[i]
      modifies this`elements
      ensures Valid() && elements == Removed(old(elements), i)
      ensures Contents(elements) == Removed(Contents(old(elements)), i)
    {
      DistinctRemoved(elements, i);
      LinkedRemoved(elements, i);
      RemovedContents(elements, i);
      RemovedIs(elements, i);
      hide Removed, Distinct, Linked, Contents;
      elements := Removed(elements, i);
    }

    /** Takes element i out of the chain. */
    method Bypass(e: Element, ghost i: nat)
      requires Valid() && IsAt(elements, e, i)
      modifies this`first, this`last, elements
      ensures forall j {:trigger elements[j].prev} :: 0 <= j < |elements| && j != i ==>
                elements[j].prev == if j == i + 1 then At(elements, i - 1) else At(elements, j - 1)
      ensures forall j {:trigger elements[j].next} :: 0 <= j < |elements| && j != i ==>
                elements[j].next == if j == i - 1 then At(elements, i + 1) else At(elements, j + 1)
      ensures e.next == At(elements, i + 1) && e.prev == At(elements, i - 1)
      ensures first == At(elements, if i == 0 then 1 else 0)
      ensures last == At(elements, if i == |elements| - 1 then i - 1 else |elements| - 1)
    {
      assert elements[i].prev == At(elements, i - 1) && elements[i].next == At(elements, i + 1);
      if e.prev == null {
        first := e.next;
      } else {
        SetNext(e.prev, e.next, i - 1);
      }
      if e.next == null {
        last := e.prev;
      } else {
        SetPrev(e.next, e.prev, i + 1);
      }
    }

    /** Removes the item ListFindItem finds. A cursor on it moves to the next item, any other stays. */
    method ListUnlink(p: Content -> bool) returns (removed: bool, ghost i: nat)
      requires Valid()
      modifies this, elements
      ensures Valid() && size == old(size)
      ensures removed <==> exists j :: 0 <= j < |old(elements)| && p(old(elements)[j].content)
      ensures !removed ==> elements == old(elements) && current == old(current)
      ensures removed ==>
                && i < |old(elements)| && p(old(elements)[i].content)
                && elements == Removed(old(elements), i) && Contents(elements) == Removed(Contents(old(elements)), i)
                && (old(elements)[i] == old(current) || forall j :: 0 <= j < i ==> !p(old(elements)[j].content))
                && current == if old(current) == old(elements)[i] then At(old(elements), i + 1) else old(current)
    {
      hide Removed, Contents;
      var saved := current;
      var found;
      found, i := ListFindItem(p);
      if found == null {
        return false, i;
      }
      ghost var s := elements;
      Bypass(found, i);
      var next := found.next;
      if saved == found {
        current := next;
      } else {
        current := saved;
      }
      count := count - 1;
      assert current != null ==> current in elements && current != elements[i];
      LinkOut(i);
      removed := true;
    }
  
    method ListDetachHead() returns (ghost found: bool, content: Content)
      requires Valid()
      modifies this, elements
      ensures Valid() && size == old(size)
      ensures found <==> old(elements) != []
      ensures if !found then content == 0 && elements == [] && current == old(current)
              else
                && content == Contents(old(elements))[0]
                && elements == Removed(old(elements), 0) && Contents(elements) == Removed(Contents(old(elements)), 0)
                && current == if old(current) == old(elements)[0] then At(old(elements), 1) else old(current)
    {
      hide Removed;
      found, content := false, 0;
      if count > 0 {
        var head := first;
        ghost var s := elements;
        assert head == s[0] && head.next == At(s, 1);
        if current == head {
          current := head.next;
        }
        if last == head {
          last := null;
        }
        content := head.content;
        first := first.next;
        if first != null {
          SetPrev(first, null, 1);
        }
        count := count - 1;
        LinkOut(0);
        found := true;
      }
    }

    method ListPopTail() returns (ghost found: bool, content: Content)
      requires Valid()
      modifies this, elements
      ensures Valid() && size == old(size)
      ensures found <==> old(elements) != []
      ensures var n := old(|elements|) - 1;
              if !found then content == 0 && elements == [] && current == old(current)
              else
                && content == Contents(old(elements))[n]
                && elements == Removed(old(elements), n) && Contents(elements) == Removed(Contents(old(elements)), n)
                && current == if old(current) == old(elements)[n] then At(old(elements), n - 1) else old(current)
    {
      hide Removed;
      found, content := false, 0;
      if count > 0 {
        var tail := last;
        ghost var s, n := elements, |elements| - 1;
        assert tail == s[n] && tail.prev == At(s, n - 1);
        if current == tail {
          current := tail.prev;
        }
        if first == tail {
          first := null;
        }
        content := tail.content;
        last := last.prev;
        if last != null {
          SetNext(last, null, n - 1);
        }
        count := count - 1;
        LinkOut(n);
        found := true;
      }
    }

    method ListEmpty()
      requires Valid()
      modifies this
      ensures Valid() && elements == [] && size == 0
    {
      ghost var s, i := elements, 0;
      while first != null
        invariant i <= |s| && first == At(s, i) && elements == s && Linked(s)
        decreases |s| - i
      {
        first := first.next;
        i := i + 1;
      }
      count, size := 0, 0;
      current, first, last := null, null, null;
      elements := [];
      assert At(elements, 0) == null && At(elements, -1) == null;
    }
  
    /** The relinking of MQTTPersistence_wrapMsgID: the list is turned to begin with element w. */
    method StartWith(wrapel: Element, ghost w: nat)
      requires Valid() && w > 0 && IsAt(elements, wrapel, w)
      modifies this, elements
      ensures Valid() && elements == Rotated(old(elements), w)
      ensures Contents(elements) == Rotated(Contents(old(elements)), w)
      ensures current == old(current) && size == old(size)
    {
      ghost var s := elements;
      assert wrapel.prev == s[w - 1];
      SetPrev(first, last, 0);
      SetNext(last, first, |s| - 1);
      first := wrapel;
      last := wrapel.prev;
      SetPrev(first, null, w);
      SetNext(last, null, w - 1);
      LinkedRotated(s, w);
      DistinctRotated(s, w);
      RotatedContents(s, w);
      RotatedIs(s, w);
      hide Rotated, Contents, Distinct, Linked;
      elements := Rotated(elements, w);
    }
  }
}
