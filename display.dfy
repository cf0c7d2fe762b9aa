/** The display driver: the report split into paragraphs and streamed, one chunk at a time, into the message. */
module Display {
  import opened Text

  /** The paragraph separator, and what is appended to every chunk. */
  const Sep := "\n\n"

  /** No two consecutive newlines occur in `p`. */
  predicate SepFree(p: string) {
    forall i :: 0 <= i < |p| - 1 ==> !(p[i] == '\n' && p[i + 1] == '\n')
  }

  /**
   * `s.split("\n\n")`: the separators are taken from the left, never overlapping, and empty
   * pieces are kept. The first piece is a prefix of `s`, followed by a separator when more
   * pieces come and equal to `s` when none do.
   */
  function Split(s: string): (ps: seq<string>)
    ensures |ps| >= 1 && ps[0] <= s
    ensures |ps| == 1 ==> ps[0] == s
    ensures |ps| > 1 ==> ps[0] + Sep <= s
    decreases |s|
  {
    if |s| < 2 then [s]
    else if s[..2] == Sep then [""] + Split(s[2..])
    else
      var rest := Split(s[1..]);
      [[s[0]] + rest[0]] + rest[1..]
  }

  /** Each piece followed by the separator: the chunks `main` streams. */
  function Terminated(ps: seq<string>): (cs: seq<string>)
    ensures |cs| == |ps|
    ensures forall k :: 0 <= k < |ps| ==> cs[k] == ps[k] + Sep
  {
    if ps == [] then [] else [ps[0] + Sep] + Terminated(ps[1..])
  }

  /** The chunks streamed for an approved report. */
  function Paragraphs(report: string): seq<string> {
    Terminated(Split(report))
  }

  /** The separators counted from the left, each one consumed whole. */
  function CountSep(s: string): nat
    decreases |s|
  {
    if |s| < 2 then 0
    else if s[..2] == Sep then 1 + CountSep(s[2..])
    else CountSep(s[1..])
  }

  /** Concatenating the chunks of a piece followed by more pieces. */
  lemma ConcatTerminatedCons(p: string, ps: seq<string>)
    ensures Concat(Terminated([p] + ps)) == p + Sep + Concat(Terminated(ps))
  {
    assert ([p] + ps)[1..] == ps;
  }

  /** The chunks concatenate back to the report followed by one separator. */
  lemma {:induction false} SplitRejoins(s: string)
    ensures Concat(Paragraphs(s)) == s + Sep
    decreases |s|
  {
    if |s| < 2 {
      assert Paragraphs(s) == [s + Sep];
    } else if s[..2] == Sep {
      SplitRejoins(s[2..]);
      ConcatTerminatedCons("", Split(s[2..]));
      assert s == Sep + s[2..];
    } else {
      SplitRejoins(s[1..]);
      RejoinPastChar(s);
    }
  }

  /** The step of `SplitRejoins` where the first character joins the first piece of the rest. */
  lemma RejoinPastChar(s: string)
    requires |s| >= 2 && s[..2] != Sep
    requires Concat(Paragraphs(s[1..])) == s[1..] + Sep
    ensures Concat(Paragraphs(s)) == s + Sep
  {
    var rest := Split(s[1..]);
    var first := [s[0]] + rest[0];
    var tail := Concat(Terminated(rest[1..]));
    assert Split(s) == [first] + rest[1..];
    ConcatTerminatedCons(first, rest[1..]);
    assert Concat(Paragraphs(s)) == first + Sep + tail;
    assert rest == [rest[0]] + rest[1..];
    ConcatTerminatedCons(rest[0], rest[1..]);
    JoinFirst(s, rest[0], tail);
  }

  /** Putting the first character back in front of the first piece rebuilds the whole string. */
  lemma JoinFirst(s: string, p: string, tail: string)
    requires |s| >= 1 && s[1..] + Sep == p + Sep + tail
    ensures [s[0]] + p + Sep + tail == s + Sep
  {
    assert [s[0]] + p + Sep + tail == [s[0]] + (p + Sep + tail);
    assert s == [s[0]] + s[1..];
  }

  /** No piece contains the separator. */
  lemma {:induction false} SplitPiecesSepFree(s: string)
    ensures forall k :: 0 <= k < |Split(s)| ==> SepFree(Split(s)[k])
    decreases |s|
  {
    var ps := Split(s);
    if |s| < 2 {
    } else if s[..2] == Sep {
      SplitPiecesSepFree(s[2..]);
      assert forall k :: 1 <= k < |ps| ==> ps[k] == Split(s[2..])[k - 1];
    } else {
      var rest := Split(s[1..]);
      SplitPiecesSepFree(s[1..]);
      var first := [s[0]] + rest[0];
      assert ps[0] == first;
      assert rest[0] != [] ==> rest[0][0] == s[1];
      forall i | 0 <= i < |first| - 1 ensures !(first[i] == '\n' && first[i + 1] == '\n') {
        if i > 0 {
          assert first[i] == rest[0][i - 1] && first[i + 1] == rest[0][i];
        }
      }
      assert forall k :: 1 <= k < |ps| ==> ps[k] == rest[k];
    }
  }

  /** No piece but the last ends with a newline: every separator is taken at its leftmost position. */
  lemma {:induction false} SplitPiecesLeftmost(s: string)
    ensures forall k :: 0 <= k < |Split(s)| - 1 ==> Split(s)[k] == [] || Split(s)[k][|Split(s)[k]| - 1] != '\n'
    decreases |s|
  {
    var ps := Split(s);
    if |s| < 2 {
    } else if s[..2] == Sep {
      var rest := Split(s[2..]);
      assert ps == [""] + rest;
      SplitPiecesLeftmost(s[2..]);
    } else {
      var rest := Split(s[1..]);
      var first := [s[0]] + rest[0];
      assert ps == [first] + rest[1..];
      SplitPiecesLeftmost(s[1..]);
      if |rest| > 1 && rest[0] == [] {
        assert s[1..][..2] == Sep;
      }
      assert |ps| > 1 ==> first[|first| - 1] != '\n';
    }
  }

  /** As many pieces as separators found from the left, plus one. */
  lemma {:induction false} SplitCount(s: string)
    ensures |Split(s)| == CountSep(s) + 1
    decreases |s|
  {
    if |s| < 2 {
    } else if s[..2] == Sep {
      SplitCount(s[2..]);
    } else {
      SplitCount(s[1..]);
    }
  }

  /** Splitting a piece followed by the separator peels that piece off, when it is a valid leading piece. */
  lemma {:induction false} SplitLeading(p: string, t: string)
    requires SepFree(p) && (p == [] || p[|p| - 1] != '\n')
    ensures Split(p + Sep + t) == [p] + Split(t)
    decreases |p|
  {
    var s := p + Sep + t;
    if p == [] {
      assert s[..2] == Sep && s[2..] == t;
    } else {
      assert s[0] == p[0];
      assert |p| == 1 ==> s[1] == '\n';
      assert |p| > 1 ==> s[1] == p[1];
      assert s[..2] != Sep;
      var p' := p[1..];
      assert SepFree(p') by {
        forall i | 0 <= i < |p'| - 1 ensures !(p'[i] == '\n' && p'[i + 1] == '\n') {
          assert p'[i] == p[i + 1] && p'[i + 1] == p[i + 2];
        }
      }
      assert s[1..] == p' + Sep + t;
      SplitLeading(p', t);
      assert [s[0]] + p' == p;
    }
  }

  /** A piece without a separator splits into itself alone. */
  lemma {:induction false} SplitSepFree(p: string)
    requires SepFree(p)
    ensures Split(p) == [p]
    decreases |p|
  {
    if |p| >= 2 {
      assert p[..2] != Sep by { assert !(p[0] == '\n' && p[1] == '\n'); }
      var p' := p[1..];
      assert SepFree(p') by {
        forall i | 0 <= i < |p'| - 1 ensures !(p'[i] == '\n' && p'[i + 1] == '\n') {
          assert p'[i] == p[i + 1] && p'[i + 1] == p[i + 2];
        }
      }
      SplitSepFree(p');
      assert [p[0]] + p' == p;
    }
  }

  /**
   * The split is the only decomposition with these properties: the pieces, each followed by the
   * separator, rebuild the report plus one separator; no piece contains the separator; and no
   * piece but the last ends with a newline (the separator is always taken leftmost).
   */
  lemma {:induction false} SplitUnique(s: string, ps: seq<string>)
    requires |ps| >= 1
    requires Concat(Terminated(ps)) == s + Sep
    requires forall k :: 0 <= k < |ps| ==> SepFree(ps[k])
    requires forall k :: 0 <= k < |ps| - 1 ==> ps[k] == [] || ps[k][|ps[k]| - 1] != '\n'
    ensures Split(s) == ps
    decreases |ps|
  {
    var p := ps[0];
    if |ps| == 1 {
      assert Concat(Terminated(ps)) == p + Sep;
      assert s == p by {
        assert (s + Sep)[..|s|] == s && (p + Sep)[..|p|] == p;
      }
      SplitSepFree(p);
    } else {
      var t := Concat(Terminated(ps[1..]));
      assert Concat(Terminated(ps)) == p + Sep + t;
      SplitRejoinsPrefix(ps[1..]);
      var s' := t[..|t| - 2];
      assert t == s' + Sep;
      assert s == p + Sep + s' by {
        assert s + Sep == (p + Sep + s') + Sep;
        assert (s + Sep)[..|s|] == s;
        assert ((p + Sep + s') + Sep)[..|p + Sep + s'|] == p + Sep + s';
      }
      SplitUnique(s', ps[1..]);
      SplitLeading(p, s');
    }
  }

  /** A non-empty list of chunks concatenates to something ending with the separator. */
  lemma SplitRejoinsPrefix(ps: seq<string>)
    requires |ps| >= 1
    ensures |Concat(Terminated(ps))| >= 2
    ensures Concat(Terminated(ps))[|Concat(Terminated(ps))| - 2..] == Sep
  {
    var cs := Terminated(ps);
    var last := |ps| - 1;
    assert cs == cs[..last] + [cs[last]];
    ConcatAppend(cs[..last], [cs[last]]);
    assert Concat([cs[last]]) == cs[last];
  }

  /** Three paragraphs give three chunks, in order. */
  lemma ThreeParagraphs()
    ensures Paragraphs("A\n\nB\n\nC") == ["A\n\n", "B\n\n", "C\n\n"]
  {
    var ps := ["A", "B", "C"];
    assert "A" + Sep == "A\n\n" && "B" + Sep == "B\n\n" && "C" + Sep == "C\n\n";
    assert Terminated(ps) == ["A\n\n", "B\n\n", "C\n\n"];
    ConcatTerminatedCons("A", ["B", "C"]);
    ConcatTerminatedCons("B", ["C"]);
    ConcatTerminatedCons("C", []);
    assert Concat(Terminated(ps)) == "A\n\nB\n\nC" + Sep;
    SplitUnique("A\n\nB\n\nC", ps);
  }

  /** An empty report still yields one chunk: the separator alone. */
  lemma EmptyReport()
    ensures Paragraphs("") == [Sep]
  {
    assert Split("") == [""];
    assert "" + Sep == Sep;
  }

  /** The outbound chat message; `tokens` records every chunk streamed into it, in order. */
  class Message {
    var tokens: seq<string>

    /** `cl.Message(content="")`: a message with nothing streamed yet. */
    constructor ()
      ensures tokens == []
    {
      tokens := [];
    }

    /** The text the user sees: every token so far, concatenated. */
    function Content(): string
      reads this
    {
      Concat(tokens)
    }

    /** `msg.stream_token(t)`: appends one token to the message. */
    method StreamToken(t: string)
      modifies this
      ensures tokens == old(tokens) + [t]
      ensures Content() == old(Content()) + t
    {
      ConcatAppend(tokens, [t]);
      assert Concat([t]) == t;
      tokens := tokens + [t];
    }
  }

  /** The loop of `main`: every paragraph of the report is streamed, in split order, followed by the separator. */
  method StreamReport(report: string, msg: Message)
    modifies msg
    ensures msg.tokens == old(msg.tokens) + Paragraphs(report)
  {
    var chunks := Split(report);
    var i := 0;
    while i < |chunks|
      invariant 0 <= i <= |chunks|
      invariant msg.tokens == old(msg.tokens) + Terminated(chunks[..i])
    {
      assert Terminated(chunks[..i + 1]) == Terminated(chunks[..i]) + [chunks[i] + Sep];
      msg.StreamToken(chunks[i] + Sep);
      i := i + 1;
    }
    assert chunks[..i] == chunks;
  }
}
