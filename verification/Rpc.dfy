// ETX framing of the JSON-RPC stream: what a reader gets out of it does not depend on how
// the stream is cut into reads.

module Rpc {
  import opened Bytes

  const ETX: Byte := 3

  // bytes.strip() leaves nothing.
  predicate IsBlank(chunk: seq<Byte>) { forall i | 0 <= i < |chunk| :: chunk[i] == 32 || 9 <= chunk[i] <= 13 }

  function Find(data: seq<Byte>, i: nat): (n: nat)
    requires i <= |data|
    ensures i <= n <= |data|
    ensures n < |data| ==> data[n] == ETX
    ensures forall j | i <= j < n :: data[j] != ETX
    decreases |data| - i
  {
    if i == |data| || data[i] == ETX then i else Find(data, i + 1)
  }

  function Kept(chunk: seq<Byte>): seq<seq<Byte>> { if IsBlank(chunk) then [] else [chunk] }

  lemma BlankIff(chunk: seq<Byte>)
    ensures IsBlank(chunk) <==> forall b | b in chunk :: b in {0x20, 0x09, 0x0a, 0x0b, 0x0c, 0x0d}
  {
    if IsBlank(chunk) {
      forall b | b in chunk ensures b in {0x20, 0x09, 0x0a, 0x0b, 0x0c, 0x0d} {
        var i :| 0 <= i < |chunk| && chunk[i] == b;
      }
    }
    forall i | 0 <= i < |chunk| ensures chunk[i] in chunk {}
  }

  // Every complete, non-blank message in a stream, and what is left after the last ETX.
  function Messages(data: seq<Byte>): seq<seq<Byte>> {
    var n := Find(data, 0);
    if n == |data| then [] else Kept(data[..n]) + Messages(data[n + 1..])
  }

  function Tail(data: seq<Byte>): seq<Byte> {
    var n := Find(data, 0);
    if n == |data| then data else Tail(data[n + 1..])
  }

  lemma FirstMessage(data: seq<Byte>)
    requires Find(data, 0) < |data|
    ensures var n := Find(data, 0);
            Messages(data) == Kept(data[..n]) + Messages(data[n + 1..]) && Tail(data) == Tail(data[n + 1..])
  {
  }

  lemma NoMessage(data: seq<Byte>)
    requires Find(data, 0) == |data|
    ensures Messages(data) == [] && Tail(data) == data
  {
  }

  class Buffer {
    var data: seq<Byte>

    constructor ()
      ensures data == []
    {
      data := [];
    }

    method Unframe() returns (out: seq<seq<Byte>>)
      modifies this
      ensures out == Messages(old(data)) && data == Tail(old(data))
    {
      hide Messages, Tail, Find, IsBlank;
      out := [];
      var idx := Find(data, 0);
      while idx < |data|
        invariant idx == Find(data, 0)
        invariant Messages(old(data)) == out + Messages(data) && Tail(old(data)) == Tail(data)
        decreases |data|
      {
        FirstMessage(data);
        var chunk := data[..idx];
        data := data[idx + 1..];
        if !IsBlank(chunk) {
          out := out + [chunk];
        }
        idx := Find(data, 0);
      }
      NoMessage(data);
    }

    // One turn of the read loop.
    method Receive(chunk: seq<Byte>) returns (out: seq<seq<Byte>>)
      modifies this
      ensures out == Messages(old(data) + chunk) && data == Tail(old(data) + chunk)
    {
      data := data + chunk;
      out := Unframe();
    }
  }

  // ----- cutting the stream anywhere -----

  lemma {:induction false} SplitAt(a: seq<Byte>, b: seq<Byte>)
    ensures Messages(a + b) == Messages(a) + Messages(Tail(a) + b)
    ensures Tail(a + b) == Tail(Tail(a) + b)
    decreases |a|
  {
    hide Messages, Tail, Kept;
    var n := Find(a, 0);
    if n < |a| {
      FirstMessage(a);
      assert Find(a + b, 0) == n by { FirstStays(a, b); }
      assert (a + b)[..n] == a[..n] && (a + b)[n + 1..] == a[n + 1..] + b;
      SplitAt(a[n + 1..], b);
      FirstMessage(a + b);
    } else {
      NoMessage(a);
    }
  }

  lemma FirstStays(a: seq<Byte>, b: seq<Byte>)
    requires Find(a, 0) < |a|
    ensures Find(a + b, 0) == Find(a, 0)
  {
    var n := Find(a, 0);
    assert (a + b)[n] == ETX;
    assert forall j | 0 <= j < n :: (a + b)[j] == a[j];
  }

  lemma {:induction false} TailHasNoEtx(data: seq<Byte>)
    ensures ETX !in Tail(data) && Messages(Tail(data)) == []
    ensures Tail(data) <= data || |Tail(data)| < |data|
    ensures |Tail(data)| <= |data| && Tail(data) == data[|data| - |Tail(data)|..]
    ensures |Tail(data)| < |data| ==> data[|data| - |Tail(data)| - 1] == ETX
    decreases |data|
  {
    var n := Find(data, 0);
    if n < |data| {
      TailHasNoEtx(data[n + 1..]);
    }
  }

  function Concat(chunks: seq<seq<Byte>>): seq<Byte> {
    if chunks == [] then [] else Concat(chunks[..|chunks| - 1]) + chunks[|chunks| - 1]
  }

  // What successive reads yield, each message taken out as soon as it is complete.
  function Session(chunks: seq<seq<Byte>>): (seq<seq<Byte>>, seq<Byte>) {
    if chunks == [] then ([], []) else
      var (out, held) := Session(chunks[..|chunks| - 1]);
      var data := held + chunks[|chunks| - 1];
      (out + Messages(data), Tail(data))
  }

  // However a stream is cut into reads, they yield the messages of the whole stream, and
  // leave the bytes after its last ETX.
  lemma {:induction false} ChunkIndependent(chunks: seq<seq<Byte>>)
    ensures Session(chunks) == (Messages(Concat(chunks)), Tail(Concat(chunks)))
  {
    if chunks != [] {
      var n := |chunks| - 1;
      ChunkIndependent(chunks[..n]);
      SplitAt(Concat(chunks[..n]), chunks[n]);
    }
  }

  // Reads until the peer closes, which an empty read says.
  method ReadLoop(chunks: seq<seq<Byte>>) returns (out: seq<seq<Byte>>, left: seq<Byte>, closed: nat)
    ensures closed <= |chunks| && (closed < |chunks| ==> chunks[closed] == [])
    ensures forall i | 0 <= i < closed :: chunks[i] != []
    ensures out == Messages(Concat(chunks[..closed])) && left == Tail(Concat(chunks[..closed]))
  {
    var buffer := new Buffer();
    out := [];
    closed := 0;
    assert chunks[..0] == [];
    while closed < |chunks| && chunks[closed] != []
      invariant closed <= |chunks| && forall i | 0 <= i < closed :: chunks[i] != []
      invariant (out, buffer.data) == Session(chunks[..closed])
    {
      assert chunks[..closed + 1][..closed] == chunks[..closed];
      var got := buffer.Receive(chunks[closed]);
      out := out + got;
      closed := closed + 1;
    }
    ChunkIndependent(chunks[..closed]);
    left := buffer.data;
  }

  // ----- framing and unframing -----

  function Wire(messages: seq<seq<Byte>>): seq<Byte> {
    if messages == [] then [] else messages[0] + [ETX] + Wire(messages[1..])
  }

  predicate EtxFree(messages: seq<seq<Byte>>) { forall i | 0 <= i < |messages| :: ETX !in messages[i] }

  function NonBlank(messages: seq<seq<Byte>>): seq<seq<Byte>> {
    if messages == [] then [] else Kept(messages[0]) + NonBlank(messages[1..])
  }

  // ETX-free messages, framed one after another, come back in order; only blank ones are
  // dropped, and nothing is left over.
  lemma {:induction false} FramedComeBack(messages: seq<seq<Byte>>)
    requires EtxFree(messages)
    ensures Messages(Wire(messages)) == NonBlank(messages) && Tail(Wire(messages)) == []
  {
    if messages != [] {
      var first, rest := messages[0], Wire(messages[1..]);
      var all := first + [ETX] + rest;
      assert Find(all, 0) == |first| by {
        assert all[|first|] == ETX;
        assert forall j | 0 <= j < |first| :: all[j] == first[j] && first[j] in first;
      }
      assert all[..|first|] == first && all[|first| + 1..] == rest;
      FramedComeBack(messages[1..]);
    }
  }

  lemma {:induction false} NoneBlank(messages: seq<seq<Byte>>)
    requires forall i | 0 <= i < |messages| :: !IsBlank(messages[i])
    ensures NonBlank(messages) == messages
  {
    if messages != [] { NoneBlank(messages[1..]); }
  }

  // Messages that are not blank all come back, as they were.
  lemma AllComeBack(messages: seq<seq<Byte>>)
    requires EtxFree(messages) && forall i | 0 <= i < |messages| :: !IsBlank(messages[i])
    ensures Messages(Wire(messages)) == messages && Tail(Wire(messages)) == []
  {
    hide Wire, Messages, Tail;
    FramedComeBack(messages);
    NoneBlank(messages);
  }
}
