/**
 A pseudo-terminal process shares one growing list of reader closers with every
 closer it has handed out. Each closer keeps a reference to the list, not a
 copy, so firing it reaches readers cloned after it was obtained.
 */
module PtyReaders {

  /** A cloned reader of the merged output; `closed` once its reads return EOF. */
  class Reader {
    var closed: bool

    constructor ()
      ensures !closed
    {
      closed := false;
    }
  }

  /** The list behind the lock: the readers that came with a closer. */
  class CloserList {
    var closers: seq<Reader>

    constructor ()
      ensures closers == []
    {
      closers := [];
    }
  }

  class CloserGroup {
    const list: CloserList

    constructor (list: CloserList)
      ensures this.list == list
    {
      this.list := list;
    }

    /** Close every reader on the list as it now stands, and no other. */
    method Close()
      modifies set r | r in list.closers
      ensures forall r :: r in list.closers ==> r.closed
    {
      for i := 0 to |list.closers|
        invariant forall j :: 0 <= j < i ==> list.closers[j].closed
      {
        list.closers[i].closed := true;
      }
    }
  }

  /** What the backend answers to a request for a reader. */
  datatype Clone = Unavailable | Plain | Interruptible

  class MxcPtyProcess {
    const readerClosers: CloserList
    var readerTaken: bool

    constructor ()
      ensures fresh(readerClosers) && readerClosers.closers == [] && !readerTaken
    {
      readerClosers := new CloserList();
      readerTaken := false;
    }

    method TryCloneReader(clone: Clone) returns (reader: Reader?)
      modifies this, readerClosers
      ensures clone.Unavailable? ==>
                reader == null && readerTaken == old(readerTaken) && readerClosers.closers == old(readerClosers.closers)
      ensures !clone.Unavailable? ==> reader != null && fresh(reader) && !reader.closed && readerTaken
      ensures clone.Plain? ==> readerClosers.closers == old(readerClosers.closers)
      ensures clone.Interruptible? ==> readerClosers.closers == old(readerClosers.closers) + [reader]
    {
      if clone.Unavailable? { return null; }
      var r := new Reader();
      if clone.Interruptible? { readerClosers.closers := readerClosers.closers + [r]; }
      readerTaken := true;
      reader := r;
    }

    method StdoutCloser() returns (closer: CloserGroup?)
      ensures closer == null <==> readerClosers.closers == []
      ensures closer != null ==> fresh(closer) && closer.list == readerClosers
    {
      if |readerClosers.closers| == 0 { return null; }
      closer := new CloserGroup(readerClosers);
    }
  }

  /** Clone readers one after another, as the backend answers. */
  method CloneAll(process: MxcPtyProcess, clones: seq<Clone>) returns (readers: seq<Reader?>)
    modifies process, process.readerClosers
    ensures |readers| == |clones|
    ensures old(process.readerClosers.closers) <= process.readerClosers.closers
    ensures forall i :: 0 <= i < |clones| ==> (readers[i] == null <==> clones[i].Unavailable?)
    ensures forall i :: 0 <= i < |clones| && readers[i] != null ==> fresh(readers[i]) && !readers[i].closed
    ensures forall i :: 0 <= i < |clones| && readers[i] != null ==>
              (readers[i] in process.readerClosers.closers <==> clones[i].Interruptible?)
    ensures forall r :: r in process.readerClosers.closers ==>
              r in old(process.readerClosers.closers) || fresh(r)
  {
    readers := [];
    for k := 0 to |clones|
      invariant |readers| == k
      invariant old(process.readerClosers.closers) <= process.readerClosers.closers
      invariant forall i :: 0 <= i < k ==> (readers[i] == null <==> clones[i].Unavailable?)
      invariant forall i :: 0 <= i < k && readers[i] != null ==> fresh(readers[i]) && !readers[i].closed
      invariant forall i :: 0 <= i < k && readers[i] != null ==>
                  (readers[i] in process.readerClosers.closers <==> clones[i].Interruptible?)
      invariant forall r :: r in process.readerClosers.closers ==>
                  r in old(process.readerClosers.closers) || fresh(r)
    {
      var r := process.TryCloneReader(clones[k]);
      readers := readers + [r];
    }
  }

  /** A closer obtained at any moment, then any number of further clones, then the
      closer: it closes every interruptible reader cloned before or after it was
      obtained, and leaves the others open. */
  method FireEarlyCloser(process: MxcPtyProcess, clones: seq<Clone>)
    returns (closer: CloserGroup?, readers: seq<Reader?>)
    modifies process, process.readerClosers, set r | r in process.readerClosers.closers
    ensures |readers| == |clones|
    ensures closer == null <==> old(process.readerClosers.closers) == []
    ensures closer != null ==>
              forall r :: r in old(process.readerClosers.closers) ==> r.closed
    ensures forall i :: 0 <= i < |clones| && readers[i] != null ==>
              (readers[i].closed <==> closer != null && clones[i].Interruptible?)
  {
    closer := process.StdoutCloser();
    readers := CloneAll(process, clones);
    if closer != null {
      assert closer.list == process.readerClosers;
      assert forall r :: r in closer.list.closers ==> r in old(process.readerClosers.closers) || fresh(r);
      closer.Close();
    }
  }
}
