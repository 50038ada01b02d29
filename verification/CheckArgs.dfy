/** Preparing check commands: finding each service's script and filling the team's details into its arguments,
    with a cache so that no argument is filled in twice for the same team. */
module CheckArgs {
  import opened Common

  datatype Team = Team(id: int, name: string, ip: int)

  datatype Service = Service(id: int, name: string, script: string, args: seq<string>)

  datatype Pair = Pair(team: Team, service: Service)

  datatype Prepared = Prepared(pair: Pair, command: seq<string>)

  datatype Token = Ip | Octet | Name | Id

  function Text(t: Token): (r: string)
    ensures r != "" && r[0] == '{' && '{' !in r[1..]
  {
    match t
    case Ip => "{IP}"
    case Octet => "{TEAM_4TH_OCTET}"
    case Name => "{TEAM_NAME}"
    case Id => "{TEAM_ID}"
  }

  /** Decimal digits, as the library formats an integer. */
  function Decimal(n: int): (r: string)
    ensures r != "" && '{' !in r
    decreases n < 0, if n < 0 then -n else n
  {
    if n < 0 then "-" + Decimal(-n)
    else if n < 10 then ["0123456789"[n]]
    else Decimal(n / 10) + ["0123456789"[n % 10]]
  }

  function Value(t: Token, team: Team, baseIP: string): string {
    match t
    case Ip => baseIP + Decimal(team.ip)
    case Octet => Decimal(team.ip)
    case Name => team.name
    case Id => Decimal(team.id)
  }

  /** The library's replace-all: leftmost, not overlapping, the replacement not scanned again. */
  function ReplaceAll(s: string, old_: string, new_: string): string
    requires old_ != ""
  {
    if s == "" then ""
    else if old_ <= s then new_ + ReplaceAll(s[|old_|..], old_, new_)
    else [s[0]] + ReplaceAll(s[1..], old_, new_)
  }

  /** The four replacements one after another, skipped when there is no opening brace. */
  function Expand(arg: string, team: Team, baseIP: string): string {
    if '{' !in arg then arg
    else
      var s1 := ReplaceAll(arg, Text(Ip), Value(Ip, team, baseIP));
      var s2 := ReplaceAll(s1, Text(Octet), Value(Octet, team, baseIP));
      var s3 := ReplaceAll(s2, Text(Name), Value(Name, team, baseIP));
      ReplaceAll(s3, Text(Id), Value(Id, team, baseIP))
  }

  // ----------------------------------------------- the cache and the loops

  function ExpandAll(args: seq<string>, team: Team, baseIP: string): (r: seq<string>)
    ensures |r| == |args|
  {
    seq(|args|, i requires 0 <= i < |args| => Expand(args[i], team, baseIP))
  }

  /** `scripts` gives the path of every script that can be found. */
  function Direct(pairs: seq<Pair>, scripts: map<string, string>, baseIP: string): seq<Prepared> {
    if pairs == [] then []
    else
      var p := pairs[|pairs| - 1];
      Direct(pairs[..|pairs| - 1], scripts, baseIP)
      + if p.service.script in scripts
        then [Prepared(p, [scripts[p.service.script]] + ExpandAll(p.service.args, p.team, baseIP))]
        else []
  }

  /** The team's key determines its name and address. */
  ghost predicate TeamsKeyed(pairs: seq<Pair>) {
    forall i, j :: 0 <= i < |pairs| && 0 <= j < |pairs| && pairs[i].team.id == pairs[j].team.id ==>
      pairs[i].team == pairs[j].team
  }

  /** What is cached under a team and argument is what that team's expansion would be. */
  ghost predicate CacheSound(cache: map<(int, string), string>, pairs: seq<Pair>, baseIP: string) {
    forall key, i :: key in cache && 0 <= i < |pairs| && pairs[i].team.id == key.0 ==>
      cache[key] == Expand(key.1, pairs[i].team, baseIP)
  }

  method PrepareChecks(pairs: seq<Pair>, scripts: map<string, string>, baseIP: string) returns (checks: seq<Prepared>)
    requires TeamsKeyed(pairs)
    ensures checks == Direct(pairs, scripts, baseIP)
  {
    checks := [];
    var cache: map<(int, string), string> := map[];
    for i := 0 to |pairs|
      invariant checks == Direct(pairs[..i], scripts, baseIP)
      invariant CacheSound(cache, pairs, baseIP)
    {
      assert pairs[..i + 1][..i] == pairs[..i];
      var p := pairs[i];
      if p.service.script !in scripts {
        assert checks + [] == checks;
        continue;
      }
      var args := [scripts[p.service.script]];
      for j := 0 to |p.service.args|
        invariant args == [scripts[p.service.script]] + ExpandAll(p.service.args, p.team, baseIP)[..j]
        invariant CacheSound(cache, pairs, baseIP)
      {
        var arg := p.service.args[j];
        var key := (p.team.id, arg);
        var s;
        if key in cache {
          s := cache[key];
        } else {
          s := Expand(arg, p.team, baseIP);
          cache := cache[key := s];
        }
        args := args + [s];
      }
      assert args == [scripts[p.service.script]] + ExpandAll(p.service.args, p.team, baseIP);
      checks := checks + [Prepared(p, args)];
    }
    assert pairs[..|pairs|] == pairs;
  }

  // ------------------------------------------------- one substitution or four

  /** The token `s` starts with, if any. */
  function Leading(s: string): (r: seq<Token>)
    ensures |r| <= 1
    ensures r != [] ==> Text(r[0]) <= s
    ensures r == [] ==> forall t :: !(Text(t) <= s)
  {
    if Text(Ip) <= s then [Ip]
    else if Text(Octet) <= s then [Octet]
    else if Text(Name) <= s then [Name]
    else if Text(Id) <= s then [Id]
    else []
  }

  /** Substitute the tokens in `done` in one scan and leave the others. */
  function Substitute(s: string, done: set<Token>, team: Team, baseIP: string): string {
    if s == "" then ""
    else
      var lead := Leading(s);
      if lead != [] then
        (if lead[0] in done then Value(lead[0], team, baseIP) else Text(lead[0]))
        + Substitute(s[|Text(lead[0])|..], done, team, baseIP)
      else [s[0]] + Substitute(s[1..], done, team, baseIP)
  }

  /** Every opening brace opens one of the four tokens. */
  predicate OnlyTokens(s: string) {
    if s == "" then true
    else
      var lead := Leading(s);
      if lead != [] then OnlyTokens(s[|Text(lead[0])|..]) else s[0] != '{' && OnlyTokens(s[1..])
  }

  /** No occurrence of `tok` begins inside `v`, whatever text follows it. */
  predicate Passive(v: string, tok: string) {
    forall p :: 0 <= p < |v| ==> !(tok <= v[p..]) && !(v[p..] <= tok)
  }

  lemma NoBracePassive(v: string, tok: string)
    requires '{' !in v && tok != "" && tok[0] == '{'
    ensures Passive(v, tok)
  {
    forall p | 0 <= p < |v| ensures !(tok <= v[p..]) && !(v[p..] <= tok) {
      assert v[p..][0] == v[p] && v[p] in v;
    }
  }

  lemma {:induction false} ReplaceSkips(v: string, rest: string, old_: string, new_: string)
    requires old_ != "" && Passive(v, old_)
    ensures ReplaceAll(v + rest, old_, new_) == v + ReplaceAll(rest, old_, new_)
  {
    if v == "" {
      assert v + rest == rest;
      assert v + ReplaceAll(rest, old_, new_) == ReplaceAll(rest, old_, new_);
    } else {
      var s := v + rest;
      assert v[0..] == v;
      NotAhead(v, rest, old_);
      assert s[0] == v[0] && s[1..] == v[1..] + rest;
      assert forall p :: 0 <= p < |v| - 1 ==> v[1..][p..] == v[p + 1..];
      ReplaceSkips(v[1..], rest, old_, new_);
      assert [v[0]] + (v[1..] + ReplaceAll(rest, old_, new_)) == v + ReplaceAll(rest, old_, new_);
    }
  }

  lemma NotAhead(v: string, rest: string, tok: string)
    requires !(tok <= v) && !(v <= tok)
    ensures !(tok <= v + rest)
  {
  }

  lemma TokensDiffer(t: Token, u: Token, rest: string)
    requires t != u
    ensures !(Text(t) <= Text(u) + rest)
  {
    var s := Text(u) + rest;
    assert s[1] == Text(u)[1] && s[2] == Text(u)[2];
    if |Text(t)| > 6 && |Text(u)| > 6 {
      assert s[6] == Text(u)[6];
    }
  }

  lemma ReplaceHits(old_: string, rest: string, new_: string)
    requires old_ != ""
    ensures ReplaceAll(old_ + rest, old_, new_) == new_ + ReplaceAll(rest, old_, new_)
  {
  }

  lemma ReplaceMisses(w: string, rest: string, old_: string, new_: string)
    requires w != "" && '{' !in w[1..] && old_ != "" && old_[0] == '{' && !(old_ <= w + rest)
    ensures ReplaceAll(w + rest, old_, new_) == w + ReplaceAll(rest, old_, new_)
  {
    assert (w + rest)[0] == w[0] && (w + rest)[1..] == w[1..] + rest;
    NoBracePassive(w[1..], old_);
    ReplaceSkips(w[1..], rest, old_, new_);
    assert [w[0]] + (w[1..] + ReplaceAll(rest, old_, new_)) == w + ReplaceAll(rest, old_, new_);
  }

  lemma ReplaceToken(u: Token, rest: string, t: Token, new_: string)
    ensures ReplaceAll(Text(u) + rest, Text(t), new_)
         == (if u == t then new_ else Text(u)) + ReplaceAll(rest, Text(t), new_)
  {
    if u == t {
      ReplaceHits(Text(t), rest, new_);
    } else {
      TokensDiffer(t, u, rest);
      ReplaceMisses(Text(u), rest, Text(t), new_);
    }
  }

  /** One more replacement is one more token substituted. */
  lemma {:induction false} ReplaceOneMore(s: string, done: set<Token>, t: Token, team: Team, baseIP: string)
    requires OnlyTokens(s) && t !in done
    requires forall u :: u in done ==> Passive(Value(u, team, baseIP), Text(t))
    ensures ReplaceAll(Substitute(s, done, team, baseIP), Text(t), Value(t, team, baseIP))
         == Substitute(s, done + {t}, team, baseIP)
  {
    if s != "" {
      var lead := Leading(s);
      if lead != [] {
        var u := lead[0];
        var rest := Substitute(s[|Text(u)|..], done, team, baseIP);
        ReplaceOneMore(s[|Text(u)|..], done, t, team, baseIP);
        if u in done {
          ReplaceSkips(Value(u, team, baseIP), rest, Text(t), Value(t, team, baseIP));
        } else {
          ReplaceToken(u, rest, t, Value(t, team, baseIP));
        }
      } else {
        ReplaceOneMore(s[1..], done, t, team, baseIP);
        NoBracePassive([s[0]], Text(t));
        ReplaceSkips([s[0]], Substitute(s[1..], done, team, baseIP), Text(t), Value(t, team, baseIP));
      }
    }
  }

  lemma {:induction false} SubstituteNothing(s: string, team: Team, baseIP: string)
    ensures Substitute(s, {}, team, baseIP) == s
  {
    if s != "" {
      var lead := Leading(s);
      if lead != [] {
        SubstituteNothing(s[|Text(lead[0])|..], team, baseIP);
      } else {
        SubstituteNothing(s[1..], team, baseIP);
      }
    }
  }

  lemma {:induction false} NothingToSubstitute(s: string, done: set<Token>, team: Team, baseIP: string)
    requires '{' !in s
    ensures Substitute(s, done, team, baseIP) == s
  {
    if s != "" {
      assert s[0] in s;
      NothingToSubstitute(s[1..], done, team, baseIP);
    }
  }

  /** The four replacements are one simultaneous substitution if no brace sequence of the team's name can be taken
      for the last token, alone or together with what follows it. */
  lemma ExpandIsSimultaneous(arg: string, team: Team, baseIP: string)
    requires OnlyTokens(arg) && Passive(team.name, Text(Id)) && '{' !in baseIP
    ensures Expand(arg, team, baseIP) == Substitute(arg, {Ip, Octet, Name, Id}, team, baseIP)
  {
    if '{' !in arg {
      NothingToSubstitute(arg, {Ip, Octet, Name, Id}, team, baseIP);
    } else {
      forall t, u | t != Name ensures Passive(Value(t, team, baseIP), Text(u)) {
        NoBracePassive(Value(t, team, baseIP), Text(u));
      }
      SubstituteNothing(arg, team, baseIP);
      ReplaceOneMore(arg, {}, Ip, team, baseIP);
      ReplaceOneMore(arg, {Ip}, Octet, team, baseIP);
      ReplaceOneMore(arg, {Ip, Octet}, Name, team, baseIP);
      ReplaceOneMore(arg, {Ip, Octet, Name}, Id, team, baseIP);
      assert {} + {Ip} == {Ip} && {Ip} + {Octet} == {Ip, Octet};
      assert {Ip, Octet} + {Name} == {Ip, Octet, Name} && {Ip, Octet, Name} + {Id} == {Ip, Octet, Name, Id};
    }
  }

  // ------------------------------------------------------ when a name gets in

  lemma {:induction false} OccurrenceReplaced(s: string, p: nat, old_: string, new_: string)
    requires old_ != "" && new_ != "" && old_[0] != new_[0]
    requires p < |s| && old_ <= s[p..]
    ensures ReplaceAll(s, old_, new_) != s
  {
    if !(old_ <= s) {
      assert p > 0 by { assert s[0..] == s; }
      assert s[1..][p - 1..] == s[p..];
      OccurrenceReplaced(s[1..], p - 1, old_, new_);
      assert s == [s[0]] + s[1..];
    } else {
      assert ReplaceAll(s, old_, new_)[0] == new_[0];
    }
  }

  lemma ReplaceNothing(s: string, old_: string, new_: string)
    requires '{' !in s && old_ != "" && old_[0] == '{'
    ensures ReplaceAll(s, old_, new_) == s
  {
    NoBracePassive(s, old_);
    ReplaceSkips(s, "", old_, new_);
    assert s + "" == s;
  }

  lemma LeadingToken(t: Token, rest: string)
    ensures Leading(Text(t) + rest) == [t]
  {
    forall u | u != t ensures !(Text(u) <= Text(t) + rest) {
      TokensDiffer(u, t, rest);
    }
  }

  /** The name token followed by plain text: the name comes in by the third replacement and the fourth scans it. */
  lemma NameThenText(tail: string, team: Team, baseIP: string)
    requires '{' !in tail
    ensures var arg := Text(Name) + tail;
            && OnlyTokens(arg)
            && Expand(arg, team, baseIP) == ReplaceAll(team.name + tail, Text(Id), Value(Id, team, baseIP))
            && Substitute(arg, {Ip, Octet, Name, Id}, team, baseIP) == team.name + tail
  {
    var arg := Text(Name) + tail;
    LeadingToken(Name, tail);
    assert arg[|Text(Name)|..] == tail;
    NoTokens(tail);
    NothingToSubstitute(tail, {Ip, Octet, Name, Id}, team, baseIP);
    forall t ensures ReplaceAll(tail, Text(t), Value(t, team, baseIP)) == tail {
      ReplaceNothing(tail, Text(t), Value(t, team, baseIP));
    }
    ReplaceToken(Name, tail, Ip, Value(Ip, team, baseIP));
    ReplaceToken(Name, tail, Octet, Value(Octet, team, baseIP));
    ReplaceToken(Name, tail, Name, Value(Name, team, baseIP));
    assert arg[0] == '{';
  }

  lemma {:induction false} NoTokens(s: string)
    requires '{' !in s
    ensures OnlyTokens(s)
  {
    if s != "" {
      assert s[0] in s;
      NoTokens(s[1..]);
    }
  }

  /** A name that is not passive can be followed by plain text so that the token occurs from within it. */
  lemma TokenFromWithin(name: string, tok: string) returns (p: nat, tail: string)
    requires !Passive(name, tok) && tok != "" && '{' !in tok[1..]
    ensures '{' !in tail && p < |name + tail| && tok <= (name + tail)[p..]
  {
    p :| 0 <= p < |name| && (tok <= name[p..] || name[p..] <= tok);
    if tok <= name[p..] {
      tail := "";
      assert name + tail == name;
    } else {
      var m := |name| - p;
      tail := tok[1..][m - 1..];
      assert tok == name[p..] + tail;
      assert (name + tail)[p..] == name[p..] + tail;
    }
  }

  /** Then there is an argument in which the name is replaced again. */
  lemma NameIsReplacedAgain(team: Team, baseIP: string) returns (arg: string)
    requires !Passive(team.name, Text(Id))
    ensures OnlyTokens(arg)
    ensures Expand(arg, team, baseIP) != Substitute(arg, {Ip, Octet, Name, Id}, team, baseIP)
  {
    var p, tail := TokenFromWithin(team.name, Text(Id));
    NameThenText(tail, team, baseIP);
    OccurrenceReplaced(team.name + tail, p, Text(Id), Value(Id, team, baseIP));
    arg := Text(Name) + tail;
  }

  /** Over all arguments whose braces open only tokens: the replacements are simultaneous exactly when the name neither
      contains "{TEAM_ID}" nor ends in a beginning of it. The other tokens are safe in a name. */
  lemma SimultaneousIffNamePassive(team: Team, baseIP: string)
    requires '{' !in baseIP
    ensures (forall arg :: OnlyTokens(arg) ==>
               Expand(arg, team, baseIP) == Substitute(arg, {Ip, Octet, Name, Id}, team, baseIP))
       <==> Passive(team.name, Text(Id))
  {
    if Passive(team.name, Text(Id)) {
      forall arg | OnlyTokens(arg)
        ensures Expand(arg, team, baseIP) == Substitute(arg, {Ip, Octet, Name, Id}, team, baseIP)
      {
        ExpandIsSimultaneous(arg, team, baseIP);
      }
    } else {
      var arg := NameIsReplacedAgain(team, baseIP);
    }
  }

  lemma NamesAndTokens(name: string)
    ensures '{' !in name ==> Passive(name, Text(Id))
    ensures name in {Text(Ip), Text(Octet), Text(Name)} ==> Passive(name, Text(Id))
    ensures name in {Text(Id), "{TEAM"} ==> !Passive(name, Text(Id))
  {
    if '{' !in name {
      NoBracePassive(name, Text(Id));
    }
    if name in {Text(Ip), Text(Octet), Text(Name)} {
      assert name[1] != 'T' || name[6] != Text(Id)[6];
      forall p | 0 <= p < |name| ensures !(Text(Id) <= name[p..]) && !(name[p..] <= Text(Id)) {
        assert name[p..][0] == name[p];
        assert p > 0 ==> name[p] in name[1..];
        assert p == 0 ==> name[p..] == name;
      }
    }
    if name in {Text(Id), "{TEAM"} {
      assert name[0..] == name && name <= Text(Id);
    }
  }

  // --------------------------------------------------- what is filled in, spelled out

  /** A digit parser: what a text of digits stands for, most significant first, after an optional minus sign. */
  function ReadNat(s: string): Option<int> {
    if s == "" then None
    else
      var last := s[|s| - 1] as int - '0' as int;
      if !(0 <= last <= 9) then None
      else if |s| == 1 then Some(last)
      else match ReadNat(s[..|s| - 1]) case None => None case Some(n) => Some(10 * n + last)
  }

  function ReadInt(s: string): Option<int> {
    if s != "" && s[0] == '-' then
      match ReadNat(s[1..]) case None => None case Some(n) => Some(-n)
    else ReadNat(s)
  }

  lemma DigitReads(d: int)
    requires 0 <= d <= 9
    ensures "0123456789"[d] as int - '0' as int == d && "0123456789"[d] != '-'
  {
  }

  lemma {:induction false} DecimalReadsNat(n: nat)
    ensures ReadNat(Decimal(n)) == Some(n) && Decimal(n)[0] != '-'
    decreases n
  {
    if n < 10 {
      DigitReads(n);
    } else {
      DecimalReadsNat(n / 10);
      DigitReads(n % 10);
      assert Decimal(n)[..|Decimal(n)| - 1] == Decimal(n / 10);
    }
  }

  lemma Unsigned(s: string)
    requires s != "" && s[0] != '-'
    ensures ReadInt(s) == ReadNat(s)
  {
  }

  lemma Signed(s: string, n: int)
    requires ReadNat(s) == Some(n)
    ensures ReadInt(['-'] + s) == Some(-n)
  {
    assert (['-'] + s)[1..] == s;
  }

  /** What a number's text stands for. */
  function ReadDecimal(n: int): Option<int> { ReadInt(Decimal(n)) }

  lemma NegativeReads(n: int)
    requires n > 0
    ensures ReadDecimal(-n) == Some(-n)
  {
    DecimalReadsNat(n);
    Signed(Decimal(n), n);
    assert Decimal(-n) == ['-'] + Decimal(n);
  }

  lemma DecimalReadsBack(n: int)
    ensures ReadDecimal(n) == Some(n)
  {
    if n < 0 {
      NegativeReads(-n);
    } else {
      DecimalReadsNat(n);
      Unsigned(Decimal(n));
    }
  }

  /** All four tokens substituted. */
  function SubstituteAll(s: string, team: Team, baseIP: string): string {
    Substitute(s, {Ip, Octet, Name, Id}, team, baseIP)
  }

  lemma PlainChar(c: char, rest: string, team: Team, baseIP: string)
    requires c != '{'
    ensures SubstituteAll([c] + rest, team, baseIP) == [c] + SubstituteAll(rest, team, baseIP)
    ensures OnlyTokens(rest) ==> OnlyTokens([c] + rest)
  {
    var s := [c] + rest;
    assert s[1..] == rest;
    assert Leading(s) == [];
  }

  lemma Regroup(a: string, b: string, c: string)
    ensures a + (b + c) == (a + b) + c
  {
  }

  lemma {:induction false} PlainBefore(before: string, rest: string, team: Team, baseIP: string)
    requires '{' !in before
    ensures SubstituteAll(before + rest, team, baseIP) == before + SubstituteAll(rest, team, baseIP)
  {
    if before == "" {
      assert before + rest == rest;
    } else {
      var c, tail := before[0], before[1..];
      assert c in before && before == [c] + tail;
      PlainBefore(tail, rest, team, baseIP);
      PlainChar(c, tail + rest, team, baseIP);
      Regroup([c], tail, rest);
      Regroup([c], tail, SubstituteAll(rest, team, baseIP));
    }
  }

  lemma {:induction false} PlainTokens(before: string, rest: string, team: Team, baseIP: string)
    requires '{' !in before && OnlyTokens(rest)
    ensures OnlyTokens(before + rest)
  {
    if before == "" {
      assert before + rest == rest;
    } else {
      var c, tail := before[0], before[1..];
      assert c in before && before == [c] + tail;
      PlainTokens(tail, rest, team, baseIP);
      PlainChar(c, tail + rest, team, baseIP);
      Regroup([c], tail, rest);
    }
  }

  lemma OneToken(before: string, t: Token, after: string, team: Team, baseIP: string)
    requires '{' !in before && '{' !in after && '{' !in team.name && '{' !in baseIP
    ensures Expand(before + (Text(t) + after), team, baseIP) == before + (Value(t, team, baseIP) + after)
  {
    var arg := before + (Text(t) + after);
    var all := {Ip, Octet, Name, Id};
    LeadingToken(t, after);
    assert (Text(t) + after)[|Text(t)|..] == after;
    NoTokens(after);
    NothingToSubstitute(after, all, team, baseIP);
    PlainBefore(before, Text(t) + after, team, baseIP);
    PlainTokens(before, Text(t) + after, team, baseIP);
    NoBracePassive(team.name, Text(Id));
    ExpandIsSimultaneous(arg, team, baseIP);
  }

  /** What comes out for each token, between any plain text: the prefix and the team's number, that number, the team's
      name and the team's key, the numbers as texts that read back as the numbers. */
  lemma TokensAreFilled(before: string, after: string, team: Team, baseIP: string)
    requires '{' !in before && '{' !in after && '{' !in team.name && '{' !in baseIP
    ensures var octet := Expand("{TEAM_4TH_OCTET}", team, baseIP);
            && ReadInt(octet) == Some(team.ip)
            && Expand(before + ("{TEAM_4TH_OCTET}" + after), team, baseIP) == before + (octet + after)
            && Expand(before + ("{IP}" + after), team, baseIP) == before + ((baseIP + octet) + after)
    ensures Expand(before + ("{TEAM_NAME}" + after), team, baseIP) == before + (team.name + after)
    ensures var id := Expand("{TEAM_ID}", team, baseIP);
            && ReadInt(id) == Some(team.id)
            && Expand(before + ("{TEAM_ID}" + after), team, baseIP) == before + (id + after)
  {
    forall t ensures Expand(before + (Text(t) + after), team, baseIP) == before + (Value(t, team, baseIP) + after) {
      OneToken(before, t, after, team, baseIP);
    }
    TokenAlone(Octet, team, baseIP);
    TokenAlone(Id, team, baseIP);
    DecimalReadsBack(team.ip);
    DecimalReadsBack(team.id);
    assert Text(Ip) == "{IP}" && Text(Octet) == "{TEAM_4TH_OCTET}";
    assert Text(Name) == "{TEAM_NAME}" && Text(Id) == "{TEAM_ID}";
  }

  lemma TokenAlone(t: Token, team: Team, baseIP: string)
    requires '{' !in team.name && '{' !in baseIP
    ensures Expand(Text(t), team, baseIP) == Value(t, team, baseIP)
  {
    OneToken("", t, "", team, baseIP);
    assert "" + (Text(t) + "") == Text(t) && "" + (Value(t, team, baseIP) + "") == Value(t, team, baseIP);
  }

  /** The pairs whose script is found. */
  function Found(pairs: seq<Pair>, scripts: map<string, string>): seq<Pair> {
    if pairs == [] then []
    else
      var p := pairs[|pairs| - 1];
      Found(pairs[..|pairs| - 1], scripts) + if p.service.script in scripts then [p] else []
  }

  /** A prepared check for each of those, in order: its script's path, then its arguments one by one, filled in. */
  lemma {:induction false} DirectMeans(pairs: seq<Pair>, scripts: map<string, string>, baseIP: string)
    ensures |Direct(pairs, scripts, baseIP)| == |Found(pairs, scripts)|
    ensures forall k :: 0 <= k < |Found(pairs, scripts)| ==>
              var p, check := Found(pairs, scripts)[k], Direct(pairs, scripts, baseIP)[k];
              && p in pairs && p.service.script in scripts && check.pair == p
              && |check.command| == 1 + |p.service.args|
              && check.command[0] == scripts[p.service.script]
              && forall j :: 0 <= j < |p.service.args| ==>
                   check.command[j + 1] == Expand(p.service.args[j], p.team, baseIP)
  {
    if pairs != [] {
      DirectMeans(pairs[..|pairs| - 1], scripts, baseIP);
    }
  }

  lemma {:induction false} FoundHas(pairs: seq<Pair>, scripts: map<string, string>, p: Pair)
    ensures p in Found(pairs, scripts) <==> p in pairs && p.service.script in scripts
  {
    if pairs != [] {
      FoundHas(pairs[..|pairs| - 1], scripts, p);
      assert pairs == pairs[..|pairs| - 1] + [pairs[|pairs| - 1]];
    }
  }

  /** So the commands of the prepared checks have the team's details where their arguments have tokens. */
  lemma CommandsAreFilled(pairs: seq<Pair>, scripts: map<string, string>, baseIP: string, k: nat, j: nat,
                          before: string, after: string)
    requires k < |Found(pairs, scripts)| && j < |Found(pairs, scripts)[k].service.args|
    requires '{' !in before && '{' !in after && '{' !in Found(pairs, scripts)[k].team.name && '{' !in baseIP
    ensures |Direct(pairs, scripts, baseIP)| == |Found(pairs, scripts)|
    ensures var p, command := Found(pairs, scripts)[k], Direct(pairs, scripts, baseIP)[k].command;
            var arg := p.service.args[j];
            var octet, id := Expand("{TEAM_4TH_OCTET}", p.team, baseIP), Expand("{TEAM_ID}", p.team, baseIP);
            && j + 1 < |command| && ReadInt(octet) == Some(p.team.ip) && ReadInt(id) == Some(p.team.id)
            && (arg == before + ("{IP}" + after) ==> command[j + 1] == before + ((baseIP + octet) + after))
            && (arg == before + ("{TEAM_4TH_OCTET}" + after) ==> command[j + 1] == before + (octet + after))
            && (arg == before + ("{TEAM_NAME}" + after) ==> command[j + 1] == before + (p.team.name + after))
            && (arg == before + ("{TEAM_ID}" + after) ==> command[j + 1] == before + (id + after))
  {
    DirectMeans(pairs, scripts, baseIP);
    TokensAreFilled(before, after, Found(pairs, scripts)[k].team, baseIP);
  }
}
