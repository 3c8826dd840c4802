/**
 The reply of one runtime turn (norax/a2a/server.py, `_A2AOutboundAdapter.send` and the end
 of `_execute_task`): chunks the runtime sends, and a future that the first non-blank one
 settles.
 */
module A2AReply {
  import opened Common

  const MAX_RESULT_CHARS: nat := 256_000

  datatype Future = Pending | Resolved | Broken

  datatype Reply = Reply(chunks: seq<string>, future: Future)

  const NO_REPLY := Reply([], Pending)

  predicate IsSpace(c: char) {
    c == ' ' || c == '\n' || c == '\r' || c == '\t' || c == '\U{000B}' || c == '\U{000C}'
  }

  function StripLeft(s: string): (r: string)
    ensures r == "" || !IsSpace(r[0])
    ensures |r| <= |s|
    ensures s != "" && !IsSpace(s[|s| - 1]) ==> r != "" && r[|r| - 1] == s[|s| - 1]
  {
    if s != "" && IsSpace(s[0]) then StripLeft(s[1..]) else s
  }

  function StripRight(s: string): (r: string)
    ensures r == "" || !IsSpace(r[|r| - 1])
    ensures r <= s
  {
    if s != "" && IsSpace(s[|s| - 1]) then StripRight(s[..|s| - 1]) else s
  }

  function Strip(s: string): string {
    StripRight(StripLeft(s))
  }

  function Total(chunks: seq<string>): nat {
    if chunks == [] then 0 else Total(chunks[..|chunks| - 1]) + |chunks[|chunks| - 1]|
  }

  /** "\n\n".join(chunks) */
  function Join(chunks: seq<string>): string {
    if chunks == [] then ""
    else if |chunks| == 1 then chunks[0]
    else Join(chunks[..|chunks| - 1]) + "\n\n" + chunks[|chunks| - 1]
  }

  datatype Receipt = Delivered | EmptyReply | ReplyTooLarge

  function Accept(reply: Reply, text: string): (Reply, Receipt) {
    var cleaned := Strip(text);
    if cleaned == "" then (reply, EmptyReply)
    else if Total(reply.chunks) + |cleaned| > MAX_RESULT_CHARS then
      (reply.(future := if reply.future.Pending? then Broken else reply.future), ReplyTooLarge)
    else
      (Reply(reply.chunks + [cleaned], if reply.future.Pending? then Resolved else reply.future), Delivered)
  }

  /** What `_execute_task` returns once the turn has returned; None is one of its errors. */
  function Harvest(reply: Reply): Option<string> {
    if !reply.future.Resolved? then None
    else
      var result := Strip(Join(reply.chunks));
      if result == "" then None else Some(result)
  }

  predicate Clean(chunk: string) {
    chunk != "" && !IsSpace(chunk[0]) && !IsSpace(chunk[|chunk| - 1])
  }

  /** What every reply a turn has built so far satisfies. */
  predicate Coherent(reply: Reply) {
    && (forall i | 0 <= i < |reply.chunks| :: Clean(reply.chunks[i]))
    && Total(reply.chunks) <= MAX_RESULT_CHARS
    && (reply.future.Pending? ==> reply.chunks == [])
    && (reply.future.Resolved? ==> reply.chunks != [])
  }

  lemma AcceptCoherent(reply: Reply, text: string)
    requires Coherent(reply)
    ensures Coherent(Accept(reply, text).0)
  {
    var cleaned := Strip(text);
    if cleaned != "" {
      assert Clean(cleaned);
      assert (reply.chunks + [cleaned])[..|reply.chunks|] == reply.chunks;
    }
  }

  /** The reply after the runtime has sent these texts, in order. */
  function Sent(texts: seq<string>): Reply {
    if texts == [] then NO_REPLY
    else Accept(Sent(texts[..|texts| - 1]), texts[|texts| - 1]).0
  }

  lemma {:induction false} SentCoherent(texts: seq<string>)
    ensures Coherent(Sent(texts))
  {
    if texts == [] {
    } else {
      SentCoherent(texts[..|texts| - 1]);
      AcceptCoherent(Sent(texts[..|texts| - 1]), texts[|texts| - 1]);
    }
  }

  lemma {:induction false} JoinClean(chunks: seq<string>)
    requires chunks != [] && forall i | 0 <= i < |chunks| :: Clean(chunks[i])
    ensures Clean(Join(chunks))
    ensures |Join(chunks)| == Total(chunks) + 2 * (|chunks| - 1)
  {
    if |chunks| == 1 {
      assert Total(chunks[..0]) == 0;
    } else {
      JoinClean(chunks[..|chunks| - 1]);
    }
  }

  /** A settled reply harvests to its chunks joined by blank lines: the empty-reply error of
      `_execute_task` cannot happen. */
  lemma HarvestIsJoin(reply: Reply)
    requires Coherent(reply) && reply.future.Resolved?
    ensures Harvest(reply) == Some(Join(reply.chunks))
    ensures |Join(reply.chunks)| == Total(reply.chunks) + 2 * (|reply.chunks| - 1)
  {
    JoinClean(reply.chunks);
  }

  predicate Blank(text: string) {
    Strip(text) == ""
  }

  /** The first non-blank text decides: a turn that returns completes its task exactly when
      that text fits on its own, whatever is sent before or after. */
  lemma {:induction false} FirstTextDecides(texts: seq<string>, first: nat)
    requires first < |texts| && !Blank(texts[first])
    requires forall i | 0 <= i < first :: Blank(texts[i])
    ensures Harvest(Sent(texts)).Some? <==> |Strip(texts[first])| <= MAX_RESULT_CHARS
    ensures !Sent(texts).future.Pending?
    ensures Sent(texts).future.Resolved? <==> |Strip(texts[first])| <= MAX_RESULT_CHARS
  {
    var n := |texts| - 1;
    if first < n {
      FirstTextDecides(texts[..n], first);
    } else {
      NothingSent(texts[..n]);
    }
    SentCoherent(texts);
    if Sent(texts).future.Resolved? {
      HarvestIsJoin(Sent(texts));
      JoinClean(Sent(texts).chunks);
    }
  }

  lemma {:induction false} NothingSent(texts: seq<string>)
    requires forall i | 0 <= i < |texts| :: Blank(texts[i])
    ensures Sent(texts) == NO_REPLY && Harvest(Sent(texts)).None?
  {
    if texts == [] {
    } else {
      NothingSent(texts[..|texts| - 1]);
    }
  }

  /** MAX_RESULT_CHARS bounds the chunks, not the result: the separators come on top. A reply
      of k chunks stays within the limit exactly when the chunks leave 2(k - 1) characters. */
  lemma LimitIgnoresSeparators(reply: Reply)
    requires Coherent(reply) && reply.future.Resolved?
    ensures Harvest(reply).Some?
    ensures |Harvest(reply).value| <= MAX_RESULT_CHARS <==>
      Total(reply.chunks) <= MAX_RESULT_CHARS - 2 * (|reply.chunks| - 1)
  {
    HarvestIsJoin(reply);
  }

  lemma {:induction false} StripPlain(text: string)
    requires text != "" && !IsSpace(text[0]) && !IsSpace(text[|text| - 1])
    ensures Strip(text) == text
  {
    assert StripLeft(text) == text;
  }

  lemma TwoChunks(a: string, b: string)
    ensures Total([a, b]) == |a| + |b|
  {
    assert [a, b][..1] == [a] && [a][..0] == [];
    assert Total([]) == 0 && Total([a]) == |a|;
  }

  lemma TwoSends(a: string, b: string)
    requires Strip(a) == a != "" && Strip(b) == b != "" && |a| + |b| <= MAX_RESULT_CHARS
    ensures Sent([a, b]) == Reply([a, b], Resolved)
  {
    assert [a, b][..1] == [a] && [a][..0] == [];
    assert Sent([]) == NO_REPLY && Total([]) == 0;
    assert Sent([a]) == Reply([a], Resolved);
    assert Total([a]) == |a| && [a] + [b] == [a, b];
  }

  function Letters(n: nat): (s: string)
    ensures |s| == n && forall i | 0 <= i < n :: s[i] == 'a'
  {
    seq(n, _ => 'a')
  }

  /** Two sends that fill the limit exactly make a reply two characters over it. */
  lemma ReplyCanExceedLimit()
    ensures var reply := Sent([Letters(MAX_RESULT_CHARS - 1), "b"]);
      && reply.future.Resolved? && Total(reply.chunks) == MAX_RESULT_CHARS
      && Harvest(reply).Some? && |Harvest(reply).value| == MAX_RESULT_CHARS + 2
  {
    var long := Letters(MAX_RESULT_CHARS - 1);
    StripPlain(long);
    StripPlain("b");
    TwoSends(long, "b");
    TwoChunks(long, "b");
    SentCoherent([long, "b"]);
    HarvestIsJoin(Sent([long, "b"]));
  }
}
