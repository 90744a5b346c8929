/** The chat transcript, the relay's streamed reply as a sequence of decoded
    chunks, and the discount trigger that watches the accumulated reply. */
module Chat {
  import opened Text

  datatype Role = User | Assistant

  datatype Message = Message(role: Role, content: string)

  datatype Option<T> = None | Some(value: T)

  /** What the chat relay request produced, as far as the page can observe it.
      `Failed`: `fetch` threw or the response was not ok, so no assistant
      message is added. `Streamed(chunks)`: the decoded chunks that arrived
      before the stream ended or the reader failed (both leave the same state). */
  datatype Response = Failed | Streamed(chunks: seq<string>)

  /** The marker whose appearance in the reply switches the discount on. */
  const Marker: string := "DISCOUNT:"

  /** The discount, in beers, that the marker grants. */
  const PromoDiscount: int := 2

  /** Every assistant message directly follows a user message: a turn appends
      a user message and then at most one assistant message. */
  ghost predicate WellFormed(messages: seq<Message>)
    decreases |messages|
  {
    if messages == [] then true
    else
      var n := |messages|;
      (messages[n - 1].role == Assistant ==> n >= 2 && messages[n - 2].role == User)
      && WellFormed(messages[..n - 1])
  }

  /** A turn keeps the transcript a run of turns: a user message, optionally
      followed by one assistant message, may be appended to any such run. */
  lemma WellFormedTurn(messages: seq<Message>, question: string, reply: string)
    requires WellFormed(messages)
    ensures WellFormed(messages + [Message(User, question)])
    ensures WellFormed(messages + [Message(User, question), Message(Assistant, reply)])
  {
    var asked := messages + [Message(User, question)];
    assert asked[..|messages|] == messages;
    var answered := asked + [Message(Assistant, reply)];
    assert answered == messages + [Message(User, question), Message(Assistant, reply)];
    assert answered[..|asked|] == asked;
  }

  /** The running buffer after the given chunks: their concatenation in arrival order. */
  function Concat(chunks: seq<string>): (r: string)
    ensures chunks == [] ==> r == ""
    ensures |chunks| == 1 ==> r == chunks[0]
  {
    if chunks == [] then "" else Concat(chunks[..|chunks| - 1]) + chunks[|chunks| - 1]
  }

  /** Concatenation distributes over splitting the chunk sequence. */
  lemma {:induction false} ConcatAppend(a: seq<string>, b: seq<string>)
    ensures Concat(a + b) == Concat(a) + Concat(b)
    decreases |b|
  {
    if b == [] {
      assert a + b == a;
    } else {
      assert (a + b)[..|a + b| - 1] == a + b[..|b| - 1];
      ConcatAppend(a, b[..|b| - 1]);
    }
  }

  /** No loss and no reordering: chunk `k` sits in the full reply right after
      the concatenation of the chunks before it, so the buffer after `k`
      chunks is a prefix of the buffer after all of them. */
  lemma ConcatChunkAt(chunks: seq<string>, k: int)
    requires 0 <= k < |chunks|
    ensures var before := Concat(chunks[..k]);
      |before| + |chunks[k]| <= |Concat(chunks)|
      && Concat(chunks)[..|before|] == before
      && Concat(chunks)[|before|..|before| + |chunks[k]|] == chunks[k]
  {
    assert chunks == chunks[..k] + ([chunks[k]] + chunks[k + 1..]);
    ConcatAppend(chunks[..k], [chunks[k]] + chunks[k + 1..]);
    ConcatAppend([chunks[k]], chunks[k + 1..]);
    assert Concat([chunks[k]]) == chunks[k] by {
      assert [chunks[k]][..0] == [];
    }
  }

  /** The discount after the page has looked at the accumulated reply `buffer`:
      it is switched from 0 to `PromoDiscount` when the buffer holds the marker,
      and otherwise left alone. */
  function Promote(discount: int, buffer: string): (d: int)
    ensures d == discount || d == PromoDiscount
    ensures d != discount ==> discount == 0 && Includes(buffer, Marker)
    ensures discount == 0 && Includes(buffer, Marker) ==> d == PromoDiscount
    ensures discount == PromoDiscount ==> d == PromoDiscount
  {
    if Includes(buffer, Marker) && discount == 0 then PromoDiscount else discount
  }

  /** One more chunk: re-checking the longer buffer against the discount so
      far gives the same as checking the longer buffer from the start, because
      a marker already seen stays in the buffer. */
  lemma PromoteStep(discount: int, buffer: string, chunk: string)
    ensures Promote(Promote(discount, buffer), buffer + chunk) == Promote(discount, buffer + chunk)
  {
    if Includes(buffer, Marker) {
      IncludesExtend(buffer, chunk, Marker);
    }
  }

  /** Once the marker has been seen, later text never takes the discount away. */
  lemma PromoteMonotone(discount: int, buffer: string, more: string)
    requires Promote(discount, buffer) == PromoDiscount
    ensures Promote(discount, buffer + more) == PromoDiscount
  {
    if discount != PromoDiscount {
      IncludesExtend(buffer, more, Marker);
    }
  }

  /** Detection runs on the accumulated reply, so a marker that occurs in the
      text of two chunks taken together triggers the discount, wherever the
      split between the chunks falls. */
  lemma MarkerAcrossChunks(a: string, b: string)
    requires Includes(a + b, Marker)
    ensures Promote(0, Concat([a, b])) == PromoDiscount
  {
    assert [a, b][..1] == [a];
    assert Concat([a, b]) == a + b;
  }

  /** An instance where neither chunk holds the marker on its own, so a
      chunk-by-chunk check would miss what the accumulated check finds. */
  lemma MarkerSplitExample()
    ensures !Includes("DISC", Marker) && !Includes("OUNT:", Marker)
    ensures Promote(0, Concat(["DISC", "OUNT:"])) == PromoDiscount
  {
    MarkerAcrossChunks("DISC", "OUNT:");
  }
}
