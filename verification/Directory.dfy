/** The queue's directory: segment files and the head file, and the file
    operations the queue performs on them. */
module Directories {
  import opened Bytes
  import opened Messages
  import opened Buffers
  import opened Records

  /** The read cursor stored in the head file. */
  datatype Cursor = Cursor(id: nat, off: nat)

  /** Segment files by id, and the head file when it exists and parses. */
  datatype DirState = DirState(files: map<nat, bytes>, head: Option<Cursor>)

  /** readHead: an absent or malformed head file reads as 0 0. */
  function HeadOf(d: DirState): Cursor {
    match d.head
    case None => Cursor(0, 0)
    case Some(c) => c
  }

  function FileOf(d: DirState, id: nat): bytes {
    if id in d.files then d.files[id] else []
  }

  function Created(d: DirState, id: nat): DirState {
    if id in d.files then d else d.(files := d.files[id := []])
  }

  function Appended(d: DirState, id: nat, data: bytes): DirState {
    d.(files := d.files[id := FileOf(d, id) + data])
  }

  /** ftruncate: cuts, or extends with zeros. */
  function Truncated(d: DirState, id: nat, n: nat): DirState {
    var f := FileOf(d, id);
    d.(files := d.files[id := if n <= |f| then f[..n] else f + Zeros(n - |f|)])
  }

  function Removed(d: DirState, id: nat): DirState {
    d.(files := d.files - {id})
  }

  function WithHead(d: DirState, c: Cursor): DirState {
    d.(head := Some(c))
  }

  /** The states a crash during an append can leave: any part of the data may
      have reached the file. */
  function AppendStates(d: DirState, id: nat, data: bytes): (states: seq<DirState>)
    ensures |states| == |data| + 1 && states[|data|] == Appended(d, id, data)
  {
    assert data[..|data|] == data;
    seq(|data| + 1, k requires 0 <= k <= |data| => Appended(d, id, data[..k]))
  }

  /** The crash states of an append, written out: the file with the first k bytes of
      the data behind what it held, for every k, and nothing else different. */
  lemma AppendStatesAre(d: DirState, id: nat, data: bytes, k: nat)
    requires k <= |data|
    ensures var s := AppendStates(d, id, data)[k];
      s.head == d.head && s.files.Keys == d.files.Keys + {id} &&
      s.files[id] == (if id in d.files then d.files[id] else []) + data[..k] &&
      forall i <- d.files.Keys - {id} :: s.files[i] == d.files[i]
  {
  }

  /** The other file operations, written out. */
  lemma FileOperations(d: DirState, id: nat, n: nat, c: Cursor)
    ensures Created(d, id).files == (if id in d.files then d.files else d.files[id := []])
    ensures Removed(d, id).files.Keys == d.files.Keys - {id}
    ensures forall i <- d.files.Keys - {id} :: Removed(d, id).files[i] == d.files[i] == Truncated(d, id, n).files[i]
    ensures id in d.files ==>
      var f, f' := d.files[id], Truncated(d, id, n).files[id];
      |f'| == n && (forall i :: 0 <= i < n ==> f'[i] == if i < |f| then f[i] else 0)
    ensures Created(d, id).head == Removed(d, id).head == Truncated(d, id, n).head == d.head
    ensures WithHead(d, c).head == Some(c) && WithHead(d, c).files == d.files
  {
  }

  /** The directory itself. The trace, which the queue never reads, collects every
      state in which a crash of the process could have left it so far. */
  class Directory {
    var state: DirState
    var trace: seq<DirState>

    constructor (d: DirState)
      ensures state == d && trace == [d]
    {
      state, trace := d, [d];
    }

    method Create(id: nat)
      modifies this
      ensures state == Created(old(state), id)
      ensures trace == old(trace) + [state]
    {
      if id !in state.files {
        state := state.(files := state.files[id := []]);
      }
      trace := trace + [state];
    }

    method Append(id: nat, data: bytes)
      modifies this
      ensures state == Appended(old(state), id, data)
      ensures trace == old(trace) + AppendStates(old(state), id, data)
    {
      trace := trace + AppendStates(state, id, data);
      state := Appended(state, id, data);
    }

    method Truncate(id: nat, n: nat)
      modifies this
      ensures state == Truncated(old(state), id, n)
      ensures trace == old(trace) + [state]
    {
      state := Truncated(state, id, n);
      trace := trace + [state];
    }

    method Remove(id: nat)
      modifies this
      ensures state == Removed(old(state), id)
      ensures trace == old(trace) + [state]
    {
      state := Removed(state, id);
      trace := trace + [state];
    }

    /** The head file is written beside the old one and renamed over it, so no
        crash shows it half-written. */
    method WriteHead(c: Cursor)
      modifies this
      ensures state == WithHead(old(state), c)
      ensures trace == old(trace) + [state]
    {
      state := WithHead(state, c);
      trace := trace + [state];
    }
  }
}
