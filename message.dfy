/**
 * The line codec shared by every participant: a command is a verb and its
 * arguments, written on one line separated by single spaces, and read back
 * by trimming the line and splitting it on runs of whitespace.
 */
module Message {
  import opened JavaText

  /** The number of characters in all of `parts` together. */
  function TotalLength(parts: seq<string>): nat {
    if parts == [] then 0 else |parts[0]| + TotalLength(parts[1..])
  }

  /** `String.join(" ", parts)`. */
  function Join(parts: seq<string>): (r: string)
  {
    if parts == [] then "" else if |parts| == 1 then parts[0] else parts[0] + " " + Join(parts[1..])
  }

  /** Joining adds exactly one separator between neighbours and nothing else. */
  lemma {:induction false} JoinLength(parts: seq<string>)
    ensures |Join(parts)| == TotalLength(parts) + (if parts == [] then 0 else |parts| - 1)
  {
    if |parts| > 1 {
      JoinLength(parts[1..]);
    }
  }

  /** `encode(command, args...)`: the verb, one space, then the arguments joined by single spaces. */
  function Encode(command: string, args: seq<string>): (r: string)
    ensures |r| == |command| + 1 + |Join(args)|
    ensures r[..|command|] == command && r[|command|] == ' ' && r[|command| + 1..] == Join(args)
  {
    command + " " + Join(args)
  }

  /** Index of the first `\s` character of `s`, or `|s|` when there is none. */
  function SpaceIndex(s: string): (i: nat)
    ensures i <= |s|
    ensures forall k | 0 <= k < i :: !IsSpace(s[k])
    ensures i < |s| ==> IsSpace(s[i])
  {
    if s == [] || IsSpace(s[0]) then 0 else 1 + SpaceIndex(s[1..])
  }

  /** Length of the run of `\s` characters that `s` starts with. */
  function SpaceRun(s: string): (n: nat)
    ensures n <= |s|
    ensures forall k | 0 <= k < n :: IsSpace(s[k])
    ensures n < |s| ==> !IsSpace(s[n])
  {
    if s != [] && IsSpace(s[0]) then 1 + SpaceRun(s[1..]) else 0
  }

  /**
   * The pieces of `s` between the matches of `\s+`, empty ones included:
   * a leading run gives an empty first piece, a trailing run an empty last one.
   */
  function Fields(s: string): (r: seq<string>)
    ensures |r| >= 1
    decreases |s|
  {
    var i := SpaceIndex(s);
    if i == |s| then [s]
    else
      var n := SpaceRun(s[i..]);
      [s[..i]] + Fields(s[i + n..])
  }

  predicate AllNoSpace(f: seq<string>) {
    forall k | 0 <= k < |f| :: NoSpace(f[k])
  }

  /** The list without its trailing empty strings. */
  function DropTrailingEmpty(r: seq<string>): (q: seq<string>)
    ensures |q| <= |r| && q == r[..|q|]
    ensures q == [] || q[|q| - 1] != ""
    ensures forall k | |q| <= k < |r| :: r[k] == ""
  {
    if r != [] && r[|r| - 1] == "" then DropTrailingEmpty(r[..|r| - 1]) else r
  }

  /**
   * `s.split("\\s+")`: a string with no match is returned whole; otherwise
   * the fields, with trailing empty ones removed.
   */
  function Split(s: string): (r: seq<string>)
    ensures SpaceIndex(s) == |s| ==> r == [s]
    ensures SpaceIndex(s) < |s| ==> r == [] || r[|r| - 1] != ""
  {
    if SpaceIndex(s) == |s| then [s] else DropTrailingEmpty(Fields(s))
  }

  /** `decode(line)`: `line.trim().split("\\s+")`. */
  function Decode(line: string): (r: seq<string>)
    ensures |r| >= 1
    ensures r == [""] <==> Trim(line) == ""
    ensures r != [""] ==> forall k | 0 <= k < |r| :: r[k] != ""
    ensures forall k | 0 <= k < |r| :: NoSpace(r[k])
  {
    var t := Trim(line);
    if t == "" then Split(t)
    else
      FieldsOfTrimmed(t);
      FieldsHaveNoSpace(t);
      SplitOfTrimmed(t);
      Split(t)
  }

  /** A token the codec can carry: non-empty and free of whitespace. */
  predicate IsToken(t: string) {
    t != "" && NoSpace(t)
  }

  predicate AllTokens(ts: seq<string>) {
    forall k | 0 <= k < |ts| :: IsToken(ts[k])
  }

  /** A list of tokens, and its tail, hold no empty string. */
  lemma TokensTail(ts: seq<string>)
    requires |ts| >= 1 && AllTokens(ts)
    ensures IsToken(ts[0]) && AllNonEmpty(ts) && AllTokens(ts[1..]) && AllNonEmpty(ts[1..])
  {
    assert forall k | 0 <= k < |ts| - 1 :: ts[1..][k] == ts[k + 1];
  }

  /**
   * A list of tokens that survives a round trip: every element is a token,
   * and neither the first character of the line nor its last is one that
   * `trim` removes (it also removes control characters that are not `\s`).
   */
  predicate Framed(ts: seq<string>) {
    |ts| >= 1 && AllTokens(ts)
    && !IsBlank(ts[0][0]) && !IsBlank(ts[|ts| - 1][|ts[|ts| - 1]| - 1])
  }

  lemma {:induction false} SpaceIndexAfterWord(a: string, b: string)
    requires NoSpace(a)
    ensures SpaceIndex(a + b) == |a| + SpaceIndex(b)
  {
    if a != [] {
      assert (a + b)[0] == a[0] && !IsSpace(a[0]);
      assert (a + b)[1..] == a[1..] + b;
      assert NoSpace(a[1..]) by {
        forall k | 0 <= k < |a| - 1 ensures !IsSpace(a[1..][k]) {
          assert a[1..][k] == a[k + 1];
        }
      }
      SpaceIndexAfterWord(a[1..], b);
    } else {
      assert a + b == b;
    }
  }

  /** The joined line starts with the first token's first character and ends with the last token's last character. */
  lemma {:induction false} JoinEnds(ts: seq<string>)
    requires |ts| >= 1 && AllNonEmpty(ts)
    ensures var j := Join(ts); |j| >= |ts[0]| && j[..|ts[0]|] == ts[0] && j[|j| - 1] == ts[|ts| - 1][|ts[|ts| - 1]| - 1]
  {
    if |ts| > 1 {
      assert forall k | 0 <= k < |ts| - 1 :: ts[1..][k] == ts[k + 1];
      JoinEnds(ts[1..]);
    }
  }

  /** Joining two non-empty lists is joining each and putting one space between. */
  lemma {:induction false} JoinAppend(a: seq<string>, b: seq<string>)
    requires a != [] && b != []
    ensures Join(a + b) == Join(a) + " " + Join(b)
  {
    assert (a + b)[0] == a[0];
    if |a| == 1 {
      assert (a + b)[1..] == b;
    } else {
      assert (a + b)[1..] == a[1..] + b;
      JoinAppend(a[1..], b);
      assert Join(a + b) == a[0] + " " + (Join(a[1..]) + " " + Join(b));
    }
  }

  /** A word without whitespace is a single field. */
  lemma FieldsOfWord(a: string)
    requires NoSpace(a)
    ensures Fields(a) == [a]
  {
    SpaceIndexAfterWord(a, "");
    assert a + "" == a;
  }

  /** A token, one space, then a string that does not start with whitespace: the token is the first field. */
  lemma FieldsAfterToken(a: string, rest: string)
    requires IsToken(a) && rest != [] && !IsSpace(rest[0])
    ensures Fields(a + " " + rest) == [a] + Fields(rest)
  {
    var s := a + " " + rest;
    assert s == a + (" " + rest);
    SpaceIndexAfterWord(a, " " + rest);
    assert s[|a|..] == " " + rest;
    assert SpaceRun(" " + rest) == 1 by {
      assert (" " + rest)[1..] == rest;
    }
    assert s[|a| + 1..] == rest;
    assert s[..|a|] == a;
  }

  /** Splitting a space-joined list of tokens into its fields gives the list back. */
  lemma {:induction false} FieldsOfJoin(ts: seq<string>)
    requires |ts| >= 1 && AllTokens(ts)
    ensures Fields(Join(ts)) == ts
  {
    TokensTail(ts);
    if |ts| == 1 {
      FieldsOfWord(ts[0]);
    } else {
      var tail := ts[1..];
      JoinEnds(tail);
      FieldsAfterToken(ts[0], Join(tail));
      FieldsOfJoin(tail);
      assert [ts[0]] + tail == ts;
    }
  }

  /** The last string of `f` is non-empty and ends with `c`. */
  predicate EndsWith(f: seq<string>, c: char) {
    |f| >= 1 && f[|f| - 1] != "" && f[|f| - 1][|f[|f| - 1]| - 1] == c
  }

  predicate AllNonEmpty(f: seq<string>) {
    forall k | 0 <= k < |f| :: f[k] != ""
  }

  /** Putting a non-empty string in front of a list of non-empty strings. */
  lemma ConsNonEmpty(a: string, fr: seq<string>, c: char)
    requires a != "" && AllNonEmpty(fr) && EndsWith(fr, c)
    ensures AllNonEmpty([a] + fr) && ([a] + fr)[0] == a && EndsWith([a] + fr, c)
  {
  }

  /** The fields of a non-empty string that neither starts nor ends with whitespace are all non-empty. */
  lemma {:induction false} FieldsOfTrimmed(s: string)
    requires s != [] && !IsSpace(s[0]) && !IsSpace(s[|s| - 1])
    ensures AllNonEmpty(Fields(s))
    ensures Fields(s)[0][0] == s[0]
    ensures EndsWith(Fields(s), s[|s| - 1])
    decreases |s|
  {
    var i := SpaceIndex(s);
    if i < |s| {
      var n := SpaceRun(s[i..]);
      var rest := s[i + n..];
      RunIsFollowed(s, i, n);
      FieldsOfTrimmed(rest);
      FieldsUnfold(s, i, n);
      var fr := Fields(rest);
      ConsNonEmpty(s[..i], fr, s[|s| - 1]);
    } else {
      assert Fields(s) == [s];
    }
  }

  /** In a string that does not end with whitespace, a whitespace run is followed by more text that keeps the last character. */
  lemma RunIsFollowed(s: string, i: nat, n: nat)
    requires s != [] && !IsSpace(s[0]) && !IsSpace(s[|s| - 1])
    requires i == SpaceIndex(s) && i < |s| && n == SpaceRun(s[i..])
    ensures i + n < |s| && 0 < i
    ensures !IsSpace(s[i + n..][0]) && s[i + n..][|s| - i - n - 1] == s[|s| - 1]
    ensures s[..i][0] == s[0]
  {
    assert !IsSpace(s[i..][|s| - 1 - i]);
  }

  /** One step of `Fields`: the text before the first whitespace run, then the fields after it. */
  lemma FieldsUnfold(s: string, i: nat, n: nat)
    requires i == SpaceIndex(s) && i < |s| && n == SpaceRun(s[i..])
    ensures Fields(s) == [s[..i]] + Fields(s[i + n..])
  {
  }

  /** No field contains whitespace. */
  lemma {:induction false} FieldsHaveNoSpace(s: string)
    ensures AllNoSpace(Fields(s))
    decreases |s|
  {
    var i := SpaceIndex(s);
    if i < |s| {
      var n := SpaceRun(s[i..]);
      FieldsHaveNoSpace(s[i + n..]);
      FieldsUnfold(s, i, n);
      assert NoSpace(s[..i]);
    } else {
      assert Fields(s) == [s];
    }
  }

  /** Such a string has no trailing empty field for `split` to drop. */
  lemma SplitOfTrimmed(s: string)
    requires s != [] && !IsSpace(s[0]) && !IsSpace(s[|s| - 1])
    ensures Split(s) == Fields(s)
  {
    FieldsOfTrimmed(s);
  }

  /** Decoding a line of space-joined tokens gives the tokens back. */
  lemma DecodeJoin(ts: seq<string>)
    requires Framed(ts)
    ensures Decode(Join(ts)) == ts
  {
    TokensTail(ts);
    JoinEnds(ts);
    var j := Join(ts);
    TrimOfTrimmed(j);
    FieldsOfJoin(ts);
    SplitOfTrimmed(j);
  }

  /**
   * Round trip of the codec: a command and its arguments, all of them
   * tokens, come back as the list `[command] + args`. With no arguments
   * the trailing space that `encode` writes is removed by `trim`.
   */
  lemma EncodeDecode(command: string, args: seq<string>)
    requires Framed([command] + args)
    ensures Decode(Encode(command, args)) == [command] + args
  {
    if args == [] {
      TrimDropsFinalBlank(command, ' ');
      assert Encode(command, args) == command + [' '];
      assert Trim(Encode(command, args)) == command;
      SplitOfTrimmed(command);
      FieldsOfWord(command);
    } else {
      var ts := [command] + args;
      assert ts[1..] == args;
      assert Encode(command, args) == Join(ts);
      DecodeJoin(ts);
    }
  }

  /** `decode` does not care how much whitespace separates the tokens of a line. */
  lemma DecodeNormalizes(line: string)
    ensures Decode(Join(Decode(line))) == Decode(line)
  {
    var ts := Decode(line);
    if ts != [""] {
      DecodedIsFramed(line);
      DecodeJoin(ts);
    }
  }

  /** The fields of a non-empty trimmed string form a framed list of tokens. */
  lemma TrimmedFieldsFramed(t: string)
    requires t != "" && Trimmed(t)
    ensures Framed(Fields(t))
  {
    FieldsOfTrimmed(t);
    FieldsHaveNoSpace(t);
    var f := Fields(t);
    assert AllNonEmpty(f) && AllNoSpace(f);
    assert AllTokens(f);
    assert EndsWith(f, t[|t| - 1]);
  }

  /** What `decode` returns for a non-blank line is a framed list of tokens. */
  lemma DecodedIsFramed(line: string)
    requires Trim(line) != ""
    ensures Framed(Decode(line))
  {
    var t := Trim(line);
    SplitOfTrimmed(t);
    TrimmedFieldsFramed(t);
  }

  /** Quotes mean nothing to the codec: a quoted two-word description arrives as two tokens. */
  lemma QuotesAreNotSpecial()
    ensures Decode("\"red car\"") == ["\"red", "car\""]
  {
    var ts := ["\"red", "car\""];
    assert Join(ts) == "\"red car\"";
    assert IsToken(ts[0]) && IsToken(ts[1]);
    DecodeJoin(ts);
  }
}
