/** Decoding the paths of RFC 6902 operations, which are RFC 6901 pointers. */
module JsonPointer {
  /** Every non-overlapping "~d" replaced by one character, left to right. */
  function ReplaceAll(s: string, d: char, repl: char): string
    decreases |s|
  {
    if s == "" then ""
    else if |s| > 1 && s[0] == '~' && s[1] == d then [repl] + ReplaceAll(s[2..], d, repl)
    else [s[0]] + ReplaceAll(s[1..], d, repl)
  }

  function Unescape(s: string): string
  {
    ReplaceAll(ReplaceAll(s, '1', '/'), '0', '~')
  }

  /** A non-empty list of pieces. */
  function Split(s: string): (r: seq<string>)
    ensures r != []
  {
    if s == "" then [""]
    else if s[0] == '/' then [""] + Split(s[1..])
    else
      var rest := Split(s[1..]);
      [[s[0]] + rest[0]] + rest[1..]
  }

  /** Section 3 of RFC 6901. */
  function EscapeChar(c: char): string
  {
    if c == '~' then "~0" else if c == '/' then "~1" else [c]
  }

  function Escape(token: string): string
  {
    if token == "" then ""
    else EscapeChar(token[0]) + Escape(token[1..])
  }

  function EscapeEach(tokens: seq<string>): seq<string>
  {
    if tokens == [] then [] else [Escape(tokens[0])] + EscapeEach(tokens[1..])
  }

  function Encode(tokens: seq<string>): string
  {
    if tokens == [] then "" else "/" + Escape(tokens[0]) + Encode(tokens[1..])
  }

  /** Section 4 of RFC 6901 read as one pass over the text. */
  function DecodeOnce(s: string): string
    decreases |s|
  {
    if s == "" then ""
    else if |s| > 1 && s[0] == '~' && s[1] == '1' then "/" + DecodeOnce(s[2..])
    else if |s| > 1 && s[0] == '~' && s[1] == '0' then "~" + DecodeOnce(s[2..])
    else [s[0]] + DecodeOnce(s[1..])
  }

  function DecodeEach(parts: seq<string>): seq<string>
  {
    seq(|parts|, i requires 0 <= i < |parts| => DecodeOnce(parts[i]))
  }

  /** The tokens of a pointer as the standard reads them: split at the slashes, each piece decoded once. */
  function Tokens(ptr: string): seq<string>
  {
    var s := if ptr != "" && ptr[0] == '/' then ptr[1..] else ptr;
    if s == "" then [] else DecodeEach(Split(s))
  }

  /** The program's way: every piece is rewritten in place, "~1" throughout and then "~0" throughout. */
  method PointerTokens(ptr: string) returns (parts: seq<string>)
    ensures parts == Tokens(ptr)
  {
    var s := if ptr != "" && ptr[0] == '/' then ptr[1..] else ptr;
    if s == "" { return []; }
    parts := Split(s);
    ghost var pieces := parts;
    for i := 0 to |parts|
      invariant |parts| == |pieces|
      invariant forall k | 0 <= k < i :: parts[k] == DecodeOnce(pieces[k])
      invariant forall k | i <= k < |parts| :: parts[k] == pieces[k]
    {
      TwoPassesAreOne(parts[i]);
      var p := ReplaceAll(parts[i], '1', '/');
      parts := parts[i := ReplaceAll(p, '0', '~')];
    }
  }

  lemma {:induction false} FirstReplaced(s: string, d: char, repl: char)
    requires s != ""
    ensures ReplaceAll(s, d, repl) != ""
    ensures ReplaceAll(s, d, repl)[0] == if |s| > 1 && s[0] == '~' && s[1] == d then repl else s[0]
  {}

  /** Replacing ~1 first and ~0 after is decoding in one pass, on any text at all. */
  lemma {:induction false} TwoPassesAreOne(s: string)
    ensures Unescape(s) == DecodeOnce(s)
    decreases |s|
  {
    if s != "" {
      var once := ReplaceAll(s, '1', '/');
      if |s| > 1 && s[0] == '~' && s[1] == '1' {
        TwoPassesAreOne(s[2..]);
        assert once[1..] == ReplaceAll(s[2..], '1', '/');
      } else if |s| > 1 && s[0] == '~' && s[1] == '0' {
        TwoPassesAreOne(s[2..]);
        var rest := ReplaceAll(s[2..], '1', '/');
        assert s[1..][1..] == s[2..];
        assert ReplaceAll(s[1..], '1', '/') == ['0'] + rest;
        assert once == ['~'] + (['0'] + rest);
        assert once[2..] == rest;
      } else {
        TwoPassesAreOne(s[1..]);
        assert once[1..] == ReplaceAll(s[1..], '1', '/');
        if |s| > 1 { FirstReplaced(s[1..], '1', '/'); }
      }
    }
  }

  /** How often the text "~01" occurs. */
  function EscapedOnes(s: string): nat
  {
    if |s| < 3 then 0 else (if s[..3] == "~01" then 1 else 0) + EscapedOnes(s[1..])
  }

  function OtherOrder(s: string): string
  {
    ReplaceAll(ReplaceAll(s, '0', '~'), '1', '/')
  }

  lemma {:induction false} OtherOrderStep(s: string)
    requires s != ""
    ensures |s| > 2 && s[..3] == "~01" ==> OtherOrder(s) == "/" + OtherOrder(s[3..])
    ensures |s| > 1 && s[..2] == "~0" && !(|s| > 2 && s[2] == '1') ==> OtherOrder(s) == "~" + OtherOrder(s[2..])
    ensures |s| > 1 && s[..2] == "~1" ==> OtherOrder(s) == "/" + OtherOrder(s[2..])
    ensures !(|s| > 1 && s[0] == '~' && (s[1] == '0' || s[1] == '1')) ==> OtherOrder(s) == [s[0]] + OtherOrder(s[1..])
  {
    var once := ReplaceAll(s, '0', '~');
    if |s| > 1 && s[0] == '~' && s[1] == '0' {
      var rest := ReplaceAll(s[2..], '0', '~');
      assert once[1..] == rest;
      if |s| > 2 {
        FirstReplaced(s[2..], '0', '~');
        assert s[2..][0] == s[2];
        if s[2] == '1' {
          assert s[2..][1..] == s[3..];
          assert once[2..] == ReplaceAll(s[3..], '0', '~');
        }
      }
    } else if |s| > 1 && s[0] == '~' && s[1] == '1' {
      assert s[1..][1..] == s[2..];
      assert once[1..] == ReplaceAll(s[1..], '0', '~') == ['1'] + ReplaceAll(s[2..], '0', '~');
      assert once[2..] == ReplaceAll(s[2..], '0', '~');
    } else {
      assert once[1..] == ReplaceAll(s[1..], '0', '~');
      if |s| > 1 { FirstReplaced(s[1..], '0', '~'); }
    }
  }

  lemma {:induction false} EscapedOnesStep(s: string)
    requires |s| > 1
    ensures s[0] == '~' && s[1] != '~' ==> EscapedOnes(s) == (if |s| > 2 && s[..3] == "~01" then 1 else 0) + EscapedOnes(s[2..])
    ensures s[0] != '~' ==> EscapedOnes(s) == EscapedOnes(s[1..])
  {
    if |s| > 2 {
      assert s[1..][1..] == s[2..];
      if |s| > 3 { assert s[1..][..3][0] == s[1]; }
    }
  }

  /**
   * The other order turns every "~01" into a slash, one character for two, and does nothing else: it
   * decodes rightly exactly the texts without one.
   */
  lemma {:induction false} OrderMatters(s: string)
    ensures |OtherOrder(s)| == |DecodeOnce(s)| - EscapedOnes(s)
    ensures OtherOrder(s) == DecodeOnce(s) <==> EscapedOnes(s) == 0
    decreases |s|
  {
    if |s| > 1 {
      OtherOrderStep(s);
      EscapedOnesStep(s);
      if s[0] == '~' && s[1] == '0' && |s| > 2 && s[2] == '1' {
        assert s[2..][1..] == s[3..] && s[2..][0] == '1';
        if |s| > 3 { EscapedOnesStep(s[2..]); }
        OrderMatters(s[3..]);
        assert DecodeOnce(s[2..]) == "1" + DecodeOnce(s[3..]);
      } else if s[0] == '~' && (s[1] == '0' || s[1] == '1') {
        OrderMatters(s[2..]);
      } else {
        OrderMatters(s[1..]);
        if |s| > 2 { assert s[..3][0] == s[0] && s[..3][1] == s[1]; }
      }
    } else if s != "" {
      OtherOrderStep(s);
      assert s[1..] == "" && OtherOrder("") == "";
    }
  }

  lemma {:induction false} DecodeChar(c: char, rest: string)
    ensures DecodeOnce(EscapeChar(c) + rest) == [c] + DecodeOnce(rest)
    ensures '/' !in EscapeChar(c)
  {
    var s := EscapeChar(c) + rest;
    if c == '~' || c == '/' {
      assert s[2..] == rest;
    } else {
      assert s[1..] == rest;
    }
  }

  lemma {:induction false} DecodeUndoesEscape(token: string)
    ensures DecodeOnce(Escape(token)) == token
    ensures '/' !in Escape(token)
  {
    if token != "" {
      DecodeUndoesEscape(token[1..]);
      DecodeChar(token[0], Escape(token[1..]));
    }
  }

  lemma {:induction false} SplitAt(a: string, b: string)
    requires '/' !in a
    ensures Split(a) == [a]
    ensures Split(a + "/" + b) == [a] + Split(b)
  {
    if a == "" {
      assert a + "/" + b == "/" + b;
      assert ("/" + b)[1..] == b;
    } else {
      SplitAt(a[1..], b);
      assert a[0] in a;
      assert (a + "/" + b)[1..] == a[1..] + "/" + b;
      assert [a[0]] + a[1..] == a;
    }
  }

  lemma {:induction false} SplitMore(a: string, more: string)
    requires '/' !in a
    ensures Split(a + "") == [a]
    ensures more != "" && more[0] == '/' ==> Split(a + more) == [a] + Split(more[1..])
  {
    assert a + "" == a;
    SplitAt(a, more);
    if more != "" && more[0] == '/' {
      SplitAt(a, more[1..]);
      assert more == "/" + more[1..];
      assert a + more == a + "/" + more[1..];
    }
  }

  lemma {:induction false} SplitUndoesEncode(tokens: seq<string>)
    requires tokens != []
    ensures Split(Encode(tokens)[1..]) == EscapeEach(tokens)
    decreases |tokens|
  {
    var more := Encode(tokens[1..]);
    DecodeUndoesEscape(tokens[0]);
    EncodeTail(tokens);
    SplitMore(Escape(tokens[0]), more);
    if tokens[1..] != [] {
      SplitUndoesEncode(tokens[1..]);
      EncodeTail(tokens[1..]);
    }
  }

  lemma {:induction false} EncodeTail(tokens: seq<string>)
    requires tokens != []
    ensures Encode(tokens)[1..] == Escape(tokens[0]) + Encode(tokens[1..])
    ensures Encode(tokens)[0] == '/'
  {
    assert Encode(tokens) == "/" + (Escape(tokens[0]) + Encode(tokens[1..]));
  }

  lemma {:induction false} DecodeUndoesEscapes(tokens: seq<string>)
    ensures DecodeEach(EscapeEach(tokens)) == tokens
    decreases |tokens|
  {
    if tokens != [] {
      DecodeUndoesEscape(tokens[0]);
      DecodeUndoesEscapes(tokens[1..]);
      DecodeMore(Escape(tokens[0]), EscapeEach(tokens[1..]));
    }
  }

  lemma {:induction false} DecodeMore(part: string, parts: seq<string>)
    ensures DecodeEach([part] + parts) == [DecodeOnce(part)] + DecodeEach(parts)
  {}

  /** A pointer's tokens read back; only a single empty token is lost, and the program refuses the pointer "/". */
  lemma {:induction false} TokensRoundTrip(tokens: seq<string>)
    ensures Tokens(Encode(tokens)) == tokens <==> tokens != [""]
  {
    if tokens != [] {
      SplitUndoesEncode(tokens);
      DecodeUndoesEscapes(tokens);
      EncodeTail(tokens);
      if Encode(tokens)[1..] == "" {
        assert |Escape(tokens[0])| + |Encode(tokens[1..])| == 0;
        assert tokens[0] == "" && |tokens| == 1;
      }
    }
  }
}
