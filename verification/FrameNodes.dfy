/** The linked nodes of the recording list and the cursor that walks them. */
module FrameNodes {
  import opened Machine
  import opened FrameRecord

  class Node {
    const frame: Frame
    var next: Node?

    constructor (frame: Frame)
      ensures this.frame == frame && next == null
    {
      this.frame := frame;
      next := null;
    }
  }

  /** The fields m_front, m_back, m_readNode and m_len of a FrameList. */
  class NodeChain {
    var front: Node?
    var back: Node?
    var readNode: Node?   // the node whose m_next the cursor points at; null for &m_front
    var len: nat
    ghost var nodes: seq<Node>   // the nodes, in list order
    ghost var frames: seq<Frame> // their frames
    ghost var cursor: nat        // how many nodes lie before the cursor
    ghost var repr: set<Node>    // every node linked into this list so far

    ghost predicate Valid()
      reads this, repr
    {
      && (forall n :: n in nodes ==> n in repr)
      && len == |nodes| == |frames|
      && (forall i :: 0 <= i < |nodes| ==> nodes[i].frame == frames[i])
      && (forall i {:trigger nodes[i].next} :: 0 <= i < |nodes| - 1 ==> nodes[i].next == nodes[i + 1])
      && (nodes != [] ==> nodes[|nodes| - 1].next == null)
      && front == (if nodes == [] then null else nodes[0])
      && (nodes != [] ==> back == nodes[|nodes| - 1])
      && cursor <= |nodes|
      && readNode == (if cursor == 0 then null else nodes[cursor - 1])
    }

    constructor ()
      ensures Valid() && frames == [] && cursor == 0 && nodes == [] && repr == {}
    {
      front, back, readNode, len := null, null, null, 0;
      nodes, frames, cursor, repr := [], [], 0, {};
    }

    method Clear()
      modifies this
      ensures Valid() && frames == [] && cursor == 0 && nodes == [] && repr == {}
    {
      front, back, readNode, len := null, null, null, 0;
      nodes, frames, cursor, repr := [], [], 0, {};
    }

    /** Link a new node behind the last one. */
    method PushBack(frame: Frame)
      requires Valid()
      modifies this, repr
      ensures Valid()
      ensures frames == old(frames) + [frame] && cursor == old(cursor)
      ensures nodes != [] && fresh(repr - old(repr))
    {
      var node := new Node(frame);
      if len == 0 {
        front, back := node, node;
        len := 1;
        nodes, frames, repr := [node], [frame], repr + {node};
      } else {
        LinkBehind(node);
      }
    }

    /** The case of a list that is not empty. */
    method LinkBehind(node: Node)
      requires Valid() && nodes != [] && node !in repr && node.next == null
      modifies this, back
      ensures Valid()
      ensures frames == old(frames) + [node.frame] && nodes == old(nodes) + [node] && cursor == old(cursor)
      ensures repr == old(repr) + {node}
    {
      back.next := node;
      back := node;
      len := len + 1;
      nodes, frames, repr := nodes + [node], frames + [node.frame], repr + {node};
    }

    /** Free the front node and move m_front to the next one.  The cursor must not point into it. */
    method FreeFront()
      requires Valid() && nodes != []
      requires cursor != 1
      modifies this
      ensures Valid()
      ensures nodes == old(nodes)[1..] && frames == old(frames)[1..]
      ensures cursor == Shift(old(cursor), 1) && repr == old(repr)
    {
      front := front.next;
      len := len - 1;
      nodes, frames := nodes[1..], frames[1..];
      cursor := Shift(cursor, 1);
    }

    /**
     * The trimming loop of an append: free nodes older than t, but never the last one; the result
     * says whether that one is older too.
     */
    method TrimBefore(t: I64) returns (back: bool)
      requires Valid() && nodes != []
      requires cursor == 0 || |frames| - |Unexpired(frames, t)| < cursor
      modifies this
      ensures Valid()
      ensures frames == Unexpired(old(frames), t)
      ensures back == ReachesBack(old(frames), t)
      ensures cursor == Shift(old(cursor), |old(frames)| - |frames|)
      ensures repr == old(repr)
    {
      back := false;
      while front != null && ToI64(front.frame.pts) < t
        invariant Valid() && nodes != []
        invariant |frames| <= |old(frames)|
        invariant Unexpired(frames, t) == Unexpired(old(frames), t)
        invariant !back && ReachesBack(frames, t) == ReachesBack(old(frames), t)
        invariant cursor == Shift(old(cursor), |old(frames)| - |frames|)
        invariant repr == old(repr)
        decreases |nodes|
      {
        if front.next == null {
          // The source prints a message here.
          back := true;
          break;
        }
        FreeFront();
      }
    }

    /** The node under the cursor, `*m_readNode`. */
    function Current(): Node?
      reads this, readNode
    {
      if readNode == null then front else readNode.next
    }

    lemma CurrentIs()
      requires Valid()
      ensures Current() == (if cursor == |nodes| then null else nodes[cursor])
    {
    }

    method Rewind()
      requires Valid()
      modifies this
      ensures Valid() && nodes == old(nodes) && frames == old(frames) && repr == old(repr) && cursor == 0
    {
      readNode, cursor := null, 0;
    }

    /** Move the cursor past the node under it. */
    method Advance()
      requires Valid() && cursor < |nodes|
      modifies this
      ensures Valid() && nodes == old(nodes) && frames == old(frames) && repr == old(repr) && cursor == old(cursor) + 1
    {
      CurrentIs();
      readNode := Current();
      cursor := cursor + 1;
    }
  }
}
