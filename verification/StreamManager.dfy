/** The stream's one current pipe: every switch of source retires it for a fresh one. */
module StreamManager {
  import opened Prelude
  import P = Pipe

  class StreamManager {
    var pipe: P.Pipe
    var listeners: nat
    var generation: nat
    var playingFile: bool
    ghost var retired: seq<P.Pipe>  // every pipe there was before the current one

    /** All earlier pipes are cancelled, the current one is not, and the generation counts the swaps. */
    ghost predicate Valid()
      reads this, pipe, pipe.slots, retired
    {
      && pipe.Valid() && !pipe.shutdown && pipe.senders > 0
      && generation == |retired|
      && forall i :: 0 <= i < |retired| ==> retired[i].shutdown && retired[i] != pipe
    }

    constructor ()
      ensures Valid() && fresh(pipe) && fresh(pipe.slots) && retired == [] && listeners == 0 && !playingFile
      ensures pipe.Abs() == P.View(None, [], [], 2048, false)
    {
      pipe := new P.Pipe(P.LIVE_BACKLOG);
      listeners, generation, playingFile, retired := 0, 0, false, [];
    }

    /**
     Retires the current pipe for a fresh empty one: its producer is told to end, and with the producer's
     handle the last sender goes and its listeners end. The fresh pipe has two, the caller's and its own.
     */
    method SwapPipe(file: bool) returns (current: P.Pipe)
      requires Valid()
      modifies this, pipe`shutdown, pipe`senders
      ensures old(pipe).senders == old(pipe.senders) - 1 && pipe.senders == 2
      ensures Valid() && retired == old(retired) + [old(pipe)] && generation == old(generation) + 1
      ensures current == pipe && fresh(pipe) && fresh(pipe.slots) && playingFile == file && listeners == old(listeners)
      ensures pipe.Abs() == P.View(None, [], [], if file then 64 else 2048, false)
    {
      generation := generation + 1;
      pipe.Retire();
      pipe.DropSender();
      retired := retired + [pipe];
      pipe := new P.Pipe(if file then P.FILE_BACKLOG else P.LIVE_BACKLOG);
      playingFile := file;
      pipe.Share();
      current := pipe;
    }

    method Stop()
      requires Valid()
      modifies this, pipe`shutdown, pipe`senders
      ensures Valid() && retired == old(retired) + [old(pipe)] && !playingFile && listeners == old(listeners)
      ensures old(pipe).senders == old(pipe.senders) - 1 && pipe.senders == 1
    {
      var current := SwapPipe(false);
      current.DropSender();
    }

    /** A listener is taken on below the limit, with its prefix and ring position from the current pipe. */
    method AddClient(maxListeners: nat) returns (body: Option<(nat, seq<Bytes>)>)
      requires Valid()
      modifies this`listeners
      ensures Valid()
      ensures old(listeners) >= maxListeners ==> body.None? && listeners == old(listeners)
      ensures old(listeners) < maxListeners ==>
        listeners == old(listeners) + 1 && body == Some((|pipe.Abs().log|, P.Prefix(pipe.Abs())))
    {
      if listeners >= maxListeners {
        return None;
      }
      listeners := listeners + 1;
      var next, prefix := pipe.Subscribe();
      return Some((next, prefix));
    }

    method RemoveClient()
      requires Valid()
      modifies this`listeners
      ensures Valid() && listeners == if old(listeners) > 0 then old(listeners) - 1 else 0
    {
      listeners := if listeners > 0 then listeners - 1 else 0;
    }
  }
}
