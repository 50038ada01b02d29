/** The service editor shows a service's arguments as one line of text: every argument quoted when the form
    opens, and the line split again when it is saved. */
module ArgsText {
  import opened Common

  /** The parser from a given state: inside quotes or not, with `arg` read so far. None is its error. */
  function Split(s: string, inQuotes: bool, arg: string): Option<seq<string>> {
    if s == "" then
      if inQuotes then None else Some([arg])
    else if s[0] == ' ' && !inQuotes then
      match Split(s[1..], false, "")
      case None => None
      case Some(rest) => Some([arg] + rest)
    else if s[0] == '\"' then Split(s[1..], !inQuotes, arg)
    else Split(s[1..], inQuotes, arg + [s[0]])
  }

  function Prepend(args: seq<string>, r: Option<seq<string>>): Option<seq<string>> {
    match r
    case None => None
    case Some(rest) => Some(args + rest)
  }

  method SplitArgs(str: string) returns (r: Option<seq<string>>)
    ensures r == Split(str, false, "")
  {
    var args: seq<string> := [];
    var inQuotes := false;
    var arg := "";
    ghost var whole := Split(str, false, "");
    assert str[0..] == str && (whole.Some? ==> [] + whole.value == whole.value);
    for i := 0 to |str|
      invariant Split(str, false, "") == Prepend(args, Split(str[i..], inQuotes, arg))
    {
      assert str[i..][0] == str[i] && str[i..][1..] == str[i + 1..];
      ghost var rest := Split(str[i + 1..], false, "");
      if str[i] == ' ' && !inQuotes {
        assert rest.Some? ==> args + ([arg] + rest.value) == (args + [arg]) + rest.value;
        args := args + [arg];
        arg := "";
      } else {
        if str[i] == '\"' {
          inQuotes := !inQuotes;
        } else {
          arg := arg + [str[i]];
        }
      }
    }
    if inQuotes {
      return None;
    }
    args := args + [arg];
    return Some(args);
  }

  /** How the form fills its input: each argument in quotes, spaces between. */
  function Print(args: seq<string>): string {
    if args == [] then ""
    else if |args| == 1 then "\"" + args[0] + "\""
    else "\"" + args[0] + "\" " + Print(args[1..])
  }

  function Quotes(s: string): nat {
    if s == "" then 0 else (if s[0] == '\"' then 1 else 0) + Quotes(s[1..])
  }

  /** Spaces that an even number of quotes precedes. */
  function FreeSpaces(s: string, inQuotes: bool): nat {
    if s == "" then 0
    else if s[0] == '\"' then FreeSpaces(s[1..], !inQuotes)
    else (if s[0] == ' ' && !inQuotes then 1 else 0) + FreeSpaces(s[1..], inQuotes)
  }

  function WithoutQuotes(s: string): string {
    if s == "" then "" else (if s[0] == '\"' then "" else [s[0]]) + WithoutQuotes(s[1..])
  }

  function Spaced(args: seq<string>): string {
    if args == [] then "" else if |args| == 1 then args[0] else args[0] + " " + Spaced(args[1..])
  }

  predicate QuoteFree(s: string) { '\"' !in s }

  predicate AllQuoteFree(args: seq<string>) { forall i :: 0 <= i < |args| ==> QuoteFree(args[i]) }

  // ------------------------------------------------------- what it computes

  lemma {:induction false} SplitCounts(s: string, inQuotes: bool, arg: string)
    ensures Split(s, inQuotes, arg).None? <==> (Quotes(s) + if inQuotes then 1 else 0) % 2 == 1
    ensures Split(s, inQuotes, arg).Some? ==> |Split(s, inQuotes, arg).value| == 1 + FreeSpaces(s, inQuotes)
  {
    if s == "" {
    } else if s[0] == ' ' && !inQuotes {
      SplitCounts(s[1..], false, "");
    } else if s[0] == '\"' {
      SplitCounts(s[1..], !inQuotes, arg);
    } else {
      SplitCounts(s[1..], inQuotes, arg + [s[0]]);
    }
  }

  lemma Regroup(a: string, b: string, c: string)
    ensures (a + b) + c == a + (b + c) && "" + c == c
  {
  }

  /** Quote-free arguments that spell `text`. */
  ghost predicate Spells(args: seq<string>, text: string) {
    args != [] && AllQuoteFree(args) && Spaced(args) == text
  }

  lemma SpellsNext(arg: string, rest: seq<string>, text: string)
    requires QuoteFree(arg) && Spells(rest, "" + text)
    ensures Spells([arg] + rest, arg + ([' '] + text))
  {
  }

  lemma {:induction false} SplitSpells(s: string, inQuotes: bool, arg: string)
    requires QuoteFree(arg)
    ensures Split(s, inQuotes, arg).Some? ==> Spells(Split(s, inQuotes, arg).value, arg + WithoutQuotes(s))
  {
    if s == "" {
      assert arg + "" == arg;
    } else if s[0] == ' ' && !inQuotes {
      SplitSpells(s[1..], false, "");
      if Split(s[1..], false, "").Some? {
        SpellsNext(arg, Split(s[1..], false, "").value, WithoutQuotes(s[1..]));
      }
    } else if s[0] == '\"' {
      SplitSpells(s[1..], !inQuotes, arg);
      assert "" + WithoutQuotes(s[1..]) == WithoutQuotes(s[1..]);
    } else {
      SplitSpells(s[1..], inQuotes, arg + [s[0]]);
      Regroup(arg, [s[0]], WithoutQuotes(s[1..]));
    }
  }

  /** For every line: it is refused exactly when its quotes are odd in number; otherwise there is one argument more
      than there are unquoted spaces, no quote is left, and the arguments with single spaces between
      them spell the line without its quotes. */
  lemma SplitMeans(line: string)
    ensures Split(line, false, "").None? <==> Quotes(line) % 2 == 1
    ensures Split(line, false, "").Some? ==>
              var args := Split(line, false, "").value;
              && |args| == 1 + FreeSpaces(line, false)
              && AllQuoteFree(args)
              && Spaced(args) == WithoutQuotes(line)
  {
    SplitCounts(line, false, "");
    SplitSpells(line, false, "");
    Regroup("", "", WithoutQuotes(line));
  }

  // -------------------------------------------------------------- where it splits

  /** A space with an even number of quotes before it. */
  predicate CutAt(line: string, i: nat) { i < |line| && line[i] == ' ' && Quotes(line[..i]) % 2 == 0 }

  /** The `k`-th stretch between cuts, from `start` on. */
  function From(start: int, cuts: seq<int>, k: nat): int
    requires k <= |cuts|
  {
    if k == 0 then start else cuts[k - 1] + 1
  }

  function To(line: string, cuts: seq<int>, k: nat): int
    requires k <= |cuts|
  {
    if k == |cuts| then |line| else cuts[k]
  }

  ghost predicate Pieces(line: string, start: int, cuts: seq<int>, args: seq<string>) {
    && |args| == |cuts| + 1
    && forall k: nat :: k < |args| ==>
         && 0 <= From(start, cuts, k) <= To(line, cuts, k) <= |line|
         && args[k] == WithoutQuotes(line[From(start, cuts, k)..To(line, cuts, k)])
  }

  function Bare(c: char): string { if c == '\"' then "" else [c] }

  lemma OneAndRest(c: char, rest: string)
    ensures WithoutQuotes([c] + rest) == Bare(c) + WithoutQuotes(rest)
    ensures Quotes([c] + rest) == (if c == '\"' then 1 else 0) + Quotes(rest)
  {
    assert ([c] + rest)[1..] == rest;
  }

  lemma {:induction false} QuotesSnoc(s: string, c: char)
    ensures Quotes(s + [c]) == Quotes(s) + if c == '\"' then 1 else 0
  {
    if s == "" {
      OneAndRest(c, "");
      assert s + [c] == [c] + "";
    } else {
      QuotesSnoc(s[1..], c);
      OneAndRest(s[0], s[1..] + [c]);
      assert s + [c] == [s[0]] + (s[1..] + [c]);
    }
  }

  lemma {:induction false} BareSnoc(s: string, c: char)
    ensures WithoutQuotes(s + [c]) == WithoutQuotes(s) + Bare(c)
  {
    if s == "" {
      OneAndRest(c, "");
      assert s + [c] == [c] + "";
      Regroup("", "", Bare(c));
    } else {
      BareSnoc(s[1..], c);
      OneAndRest(s[0], s[1..] + [c]);
      OneAndRest(s[0], s[1..]);
      assert s + [c] == [s[0]] + (s[1..] + [c]) && s == [s[0]] + s[1..];
      Regroup(Bare(s[0]), WithoutQuotes(s[1..]), Bare(c));
    }
  }

  lemma OneFurther(line: string, start: nat, i: nat)
    requires start <= i < |line|
    ensures WithoutQuotes(line[start..i + 1])
         == WithoutQuotes(line[start..i]) + Bare(line[i])
    ensures Quotes(line[..i + 1]) == Quotes(line[..i]) + if line[i] == '\"' then 1 else 0
  {
    BareSnoc(line[start..i], line[i]);
    QuotesSnoc(line[..i], line[i]);
    assert line[start..i] + [line[i]] == line[start..i + 1] && line[..i] + [line[i]] == line[..i + 1];
  }

  lemma FirstPiece(line: string, start: nat, i: nat, cuts: seq<int>, args: seq<string>, first: string)
    requires start <= i < |line| && Pieces(line, i + 1, cuts, args) && first == WithoutQuotes(line[start..i])
    ensures Pieces(line, start, [i] + cuts, [first] + args)
  {
    forall k: nat | k < |args| + 1
      ensures 0 <= From(start, [i] + cuts, k) <= To(line, [i] + cuts, k) <= |line|
      ensures ([first] + args)[k] == WithoutQuotes(line[From(start, [i] + cuts, k)..To(line, [i] + cuts, k)])
    {
      if k > 0 {
        assert From(start, [i] + cuts, k) == From(i + 1, cuts, k - 1);
        assert To(line, [i] + cuts, k) == To(line, cuts, k - 1);
      }
    }
  }

  /** The parse from position `i` on, in an argument that began at `start`. */
  function Rest(line: string, start: nat, i: nat): Option<seq<string>>
    requires start <= i <= |line|
  {
    Split(line[i..], Quotes(line[..i]) % 2 == 1, WithoutQuotes(line[start..i]))
  }

  lemma RestStep(line: string, start: nat, i: nat)
    requires start <= i < |line|
    ensures Rest(line, start, i) ==
            if CutAt(line, i) then Prepend([WithoutQuotes(line[start..i])], Rest(line, i + 1, i + 1))
            else Rest(line, start, i + 1)
  {
    OneFurther(line, start, i);
    assert line[i..][0] == line[i] && line[i..][1..] == line[i + 1..];
    assert line[i + 1..i + 1] == "";
    assert WithoutQuotes(line[start..i]) + "" == WithoutQuotes(line[start..i]);
  }

  lemma RestEnds(line: string, start: nat)
    requires start <= |line|
    ensures Rest(line, start, |line|).Some? ==> Rest(line, start, |line|).value == [WithoutQuotes(line[start..])]
  {
    assert line[start..|line|] == line[start..];
  }

  lemma {:induction false} SplitFrom(line: string, start: nat, i: nat) returns (cuts: seq<int>)
    requires start <= i <= |line| && Rest(line, start, i).Some?
    ensures Pieces(line, start, cuts, Rest(line, start, i).value)
    ensures forall j, k :: 0 <= j < k < |cuts| ==> cuts[j] < cuts[k]
    ensures forall j: int :: j in cuts <==> i <= j < |line| && CutAt(line, j)
    decreases |line| - i
  {
    if i == |line| {
      cuts := [];
      RestEnds(line, start);
      assert line[start..|line|] == line[start..];
    } else {
      RestStep(line, start, i);
      if CutAt(line, i) {
        var rest := SplitFrom(line, i + 1, i + 1);
        FirstPiece(line, start, i, rest, Rest(line, i + 1, i + 1).value, WithoutQuotes(line[start..i]));
        assert forall k :: 0 <= k < |rest| ==> rest[k] in rest;
        cuts := [i] + rest;
      } else {
        cuts := SplitFrom(line, start, i + 1);
      }
    }
  }

  /** A line that is accepted is cut at its unquoted spaces and nowhere else, and each
      argument is the stretch between two cuts, without its quotes. */
  lemma SplitPieces(line: string) returns (cuts: seq<int>)
    requires Split(line, false, "").Some?
    ensures Pieces(line, 0, cuts, Split(line, false, "").value)
    ensures forall j, k :: 0 <= j < k < |cuts| ==> cuts[j] < cuts[k]
    ensures forall j: int :: j in cuts <==> 0 <= j < |line| && CutAt(line, j)
  {
    assert line[0..] == line && line[..0] == "" && line[0..0] == "";
    cuts := SplitFrom(line, 0, 0);
  }

  // -------------------------------------------------------------- round trip

  /** Within quotes everything but a quote is taken as it is. */
  lemma {:induction false} SplitQuoted(a: string, rest: string, arg: string)
    requires QuoteFree(a)
    ensures Split(a + "\"" + rest, true, arg) == Split(rest, false, arg + a)
  {
    if a == "" {
      assert a + "\"" + rest == "\"" + rest && ("\"" + rest)[1..] == rest;
      assert arg + a == arg;
    } else {
      var s := a + "\"" + rest;
      assert s[0] == a[0] && s[1..] == a[1..] + "\"" + rest;
      SplitQuoted(a[1..], rest, arg + [a[0]]);
      assert (arg + [a[0]]) + a[1..] == arg + a;
    }
  }

  lemma {:induction false} SplitPrinted(args: seq<string>)
    requires args != [] && AllQuoteFree(args)
    ensures Split(Print(args), false, "") == Some(args)
  {
    if |args| == 1 {
      QuoteOpens(args[0], "");
      assert "\"" + args[0] + "\"" == "\"" + args[0] + "\"" + "";
      SplitQuoted(args[0], "", "");
      assert args == [args[0]];
    } else {
      var tail := " " + Print(args[1..]);
      assert "\"" + args[0] + "\" " + Print(args[1..]) == "\"" + args[0] + "\"" + tail;
      QuoteOpens(args[0], tail);
      SplitQuoted(args[0], tail, "");
      assert tail[1..] == Print(args[1..]);
      SplitPrinted(args[1..]);
      assert args == [args[0]] + args[1..];
    }
  }

  lemma QuoteOpens(a: string, tail: string)
    requires QuoteFree(a)
    ensures Split("\"" + a + "\"" + tail, false, "") == Split(tail, false, a)
  {
    var line := "\"" + a + "\"" + tail;
    assert line[0] == '\"' && line[1..] == a + "\"" + tail;
    SplitQuoted(a, tail, "");
    assert "" + a == a;
  }

  /** Opening a service in the editor and saving it unchanged keeps its arguments exactly when it has some and none
      contains a quote. A service without arguments comes back with one empty argument. */
  lemma EditKeepsArgs(args: seq<string>)
    ensures Split(Print(args), false, "") == Some(args) <==> args != [] && AllQuoteFree(args)
    ensures Split(Print([]), false, "") == Some([""])
  {
    SplitSpells(Print(args), false, "");
    if args != [] && AllQuoteFree(args) {
      SplitPrinted(args);
    }
  }
}
