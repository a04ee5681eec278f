/** Alignment of success-rate columns with their request columns
    (app/services/kpi_measurement_units.py, lines 509 to 575). Name tests and token extraction, which
    are regular expressions over normalized text, are arbitrary functions here. */
module Alignment {
  import opened Wrappers

  type Token = t: string | t != "" witness "x"

  predicate AsciiLetter(c: char) { 'A' <= c <= 'Z' || 'a' <= c <= 'z' }

  /** Tokens that may abbreviate a run of words. */
  predicate Abbreviable(token: Token) {
    2 <= |token| <= 8 && forall c :: c in token ==> AsciiLetter(c)
  }

  function Initials(tokens: seq<Token>): (s: string)
    ensures |s| == |tokens|
  {
    if tokens == [] then "" else Initials(tokens[..|tokens| - 1]) + [tokens[|tokens| - 1][0]]
  }

  /** The deterministic left-to-right scan: an equal token first, otherwise exactly as many words as
      the token has letters. */
  function Scan(rate: seq<Token>, request: seq<Token>): bool {
    if rate == [] then request == []
    else if request == [] then false
    else if rate[0] == request[0] then Scan(rate[1..], request[1..])
    else
      var n := |rate[0]|;
      Abbreviable(rate[0]) && n <= |request| && Initials(request[..n]) == rate[0] && Scan(rate[1..], request[n..])
  }

  lemma {:induction false} InitialsPrefix(tokens: seq<Token>, n: nat)
    requires n <= |tokens|
    ensures Initials(tokens[..n]) == Initials(tokens)[..n]
    decreases |tokens|
  {
    if n < |tokens| {
      var front := tokens[..|tokens| - 1];
      InitialsPrefix(front, n);
      assert front[..n] == tokens[..n];
    } else {
      assert tokens[..n] == tokens;
    }
  }

  /** The memoised matcher. */
  class Matcher {
    const rate: seq<Token>
    const request: seq<Token>
    var memo: map<(nat, nat), bool>

    ghost predicate Valid()
      reads this
    {
      forall key :: key in memo ==>
        key.0 <= |rate| && key.1 <= |request| && memo[key] == Scan(rate[key.0..], request[key.1..])
    }

    constructor (rate: seq<Token>, request: seq<Token>)
      ensures Valid() && this.rate == rate && this.request == request && fresh(this)
    {
      this.rate, this.request, memo := rate, request, map[];
    }

    method Match(i: nat, j: nat) returns (matched: bool)
      requires Valid() && i <= |rate| && j <= |request|
      modifies this`memo
      ensures Valid() && (i, j) in memo && old(memo.Keys) <= memo.Keys
      ensures matched == Scan(rate[i..], request[j..])
      decreases |rate| - i
    {
      if (i, j) in memo { return memo[(i, j)]; }
      matched := Compute(i, j);
      memo := memo[(i, j) := matched];
    }

    method Compute(i: nat, j: nat) returns (matched: bool)
      requires Valid() && i <= |rate| && j <= |request|
      modifies this`memo
      ensures Valid() && old(memo.Keys) <= memo.Keys
      ensures matched == Scan(rate[i..], request[j..])
      decreases |rate| - i, 0
    {
      hide Scan; hide Initials;
      ScanCases(rate, request, i, j);
      if i == |rate| { return j == |request|; }
      if j == |request| { return false; }
      var token := rate[i];
      if token == request[j] {
        matched := Match(i + 1, j + 1);
        return;
      }
      if !Abbreviable(token) { return false; }
      var acronym := "";
      var end := j + 1;
      while end <= |request|
        invariant j + 1 <= end <= |request| + 1
        invariant acronym == Initials(request[j..end - 1]) && acronym <= token && end - 1 - j == |acronym|
        invariant acronym == token ==> !Scan(rate[i + 1..], request[j + |token|..])
        invariant Valid() && old(memo.Keys) <= memo.Keys
      {
        OneMoreInitial(request, j, end);
        acronym := acronym + [request[end - 1][0]];
        if !(acronym <= token) {
          LongerThanMatch(rate, request, i, j, end);
          return false;
        }
        if acronym == token {
          var rest := Match(i + 1, end);
          if rest { return true; }
        }
        end := end + 1;
      }
      assert request[j..|request|] == request[j..];
      matched := false;
    }
  }

  lemma {:induction false} OneMoreInitial(request: seq<Token>, j: nat, end: nat)
    requires j < end <= |request|
    ensures Initials(request[j..end]) == Initials(request[j..end - 1]) + [request[end - 1][0]]
  {
    assert request[j..end][..end - 1 - j] == request[j..end - 1];
  }

  /** The scan from a pair of positions, one step unfolded. */
  lemma {:induction false} ScanCases(rate: seq<Token>, request: seq<Token>, i: nat, j: nat)
    requires i <= |rate| && j <= |request|
    ensures i == |rate| ==> (Scan(rate[i..], request[j..]) <==> j == |request|)
    ensures i < |rate| && j == |request| ==> !Scan(rate[i..], request[j..])
    ensures i < |rate| && j < |request| && rate[i] == request[j] ==>
      Scan(rate[i..], request[j..]) == Scan(rate[i + 1..], request[j + 1..])
    ensures i < |rate| && j < |request| && rate[i] != request[j] ==>
      (Scan(rate[i..], request[j..]) <==>
        Abbreviable(rate[i]) && j + |rate[i]| <= |request| && Initials(request[j..j + |rate[i]|]) == rate[i]
        && Scan(rate[i + 1..], request[j + |rate[i]|..]))
  {
    hide Initials; hide Abbreviable;
    if i < |rate| && j < |request| {
      var n := |rate[i]|;
      assert rate[i..][1..] == rate[i + 1..] && request[j..][1..] == request[j + 1..];
      if j + n <= |request| {
        assert request[j..][..n] == request[j..j + n] && request[j..][n..] == request[j + n..];
      }
    }
  }

  /** The break of the loop: once the acronym leaves the token, no longer run of words spells it. */
  lemma {:induction false} LongerThanMatch(rate: seq<Token>, request: seq<Token>, i: nat, j: nat, end: nat)
    requires i < |rate| && j < end <= |request| && rate[i] != request[j]
    requires !(Initials(request[j..end]) <= rate[i]) && Initials(request[j..end - 1]) <= rate[i]
    requires Initials(request[j..end - 1]) == rate[i] ==> !Scan(rate[i + 1..], request[j + |rate[i]|..])
    ensures !Scan(rate[i..], request[j..])
  {
    hide Scan;
    ScanCases(rate, request, i, j);
    var n := |rate[i]|;
    if j + n <= |request| && end - j <= n {
      InitialsPrefix(request[j..j + n], end - j);
      assert request[j..j + n][..end - j] == request[j..end];
    }
  }

  method TokensMatch(rate: seq<Token>, request: seq<Token>) returns (matched: bool)
    ensures matched == Scan(rate, request)
  {
    var matcher := new Matcher(rate, request);
    matched := matcher.Match(0, 0);
    assert rate[0..] == rate && request[0..] == request;
  }

  // ----- What a match means ----------------------------------------------------------------------

  /** A token stands for a run of words: itself, or words whose initials it is. */
  ghost predicate StandsFor(token: Token, words: seq<Token>) {
    words == [token] || (Abbreviable(token) && Initials(words) == token)
  }

  function Flatten(runs: seq<seq<Token>>): seq<Token> {
    if runs == [] then [] else runs[0] + Flatten(runs[1..])
  }

  /** The request tokens cut into one run of words for each rate token. */
  ghost predicate Segmentation(rate: seq<Token>, request: seq<Token>, runs: seq<seq<Token>>) {
    && |runs| == |rate| && Flatten(runs) == request
    && forall k :: 0 <= k < |rate| ==> StandsFor(rate[k], runs[k])
  }

  /** A segmentation that abbreviates only where the next word is not the token itself. */
  ghost predicate ExactFirst(rate: seq<Token>, request: seq<Token>, runs: seq<seq<Token>>) {
    && Segmentation(rate, request, runs)
    && forall k :: 0 <= k < |rate| && runs[k] != [] && rate[k] == runs[k][0] ==> runs[k] == [rate[k]]
  }

  lemma {:induction false} MatchIsSegmentation(rate: seq<Token>, request: seq<Token>) returns (runs: seq<seq<Token>>)
    requires Scan(rate, request)
    ensures ExactFirst(rate, request, runs)
  {
    if rate == [] { return []; }
    var n := if rate[0] == request[0] then 1 else |rate[0]|;
    var rest := MatchIsSegmentation(rate[1..], request[n..]);
    runs := [request[..n]] + rest;
    assert runs[1..] == rest && request == request[..n] + request[n..];
    forall k | 0 <= k < |rate|
      ensures StandsFor(rate[k], runs[k])
      ensures runs[k] != [] && rate[k] == runs[k][0] ==> runs[k] == [rate[k]]
    {
      if k > 0 { assert rate[1..][k - 1] == rate[k] && rest[k - 1] == runs[k]; }
    }
  }

  lemma {:induction false} SegmentationIsMatch(rate: seq<Token>, request: seq<Token>, runs: seq<seq<Token>>)
    requires ExactFirst(rate, request, runs)
    ensures Scan(rate, request)
  {
    if rate != [] {
      var words := runs[0];
      assert StandsFor(rate[0], words);
      var rest := runs[1..];
      assert request[|words|..] == Flatten(rest) && request[..|words|] == words;
      forall k | 0 <= k < |rate| - 1
        ensures StandsFor(rate[1..][k], rest[k])
        ensures rest[k] != [] && rate[1..][k] == rest[k][0] ==> rest[k] == [rate[1..][k]]
      {
        assert rest[k] == runs[k + 1];
      }
      SegmentationIsMatch(rate[1..], request[|words|..], rest);
    }
  }

  /** The aligner accepts exactly the token lists with a segmentation that prefers equal tokens. */
  lemma {:induction false} MatchesExactly(rate: seq<Token>, request: seq<Token>)
    ensures Scan(rate, request) <==> exists runs :: ExactFirst(rate, request, runs)
  {
    if Scan(rate, request) {
      var runs := MatchIsSegmentation(rate, request);
    }
    forall runs | ExactFirst(rate, request, runs) ensures Scan(rate, request) {
      SegmentationIsMatch(rate, request, runs);
    }
  }

  /** Not every segmentation is found: here the first word equals the token, so it is consumed alone,
      although the two words together are abbreviated by the token as well. */
  lemma {:induction false} SegmentationMissed()
    ensures Segmentation(["ab"], ["ab", "b"], [["ab", "b"]]) && !Scan(["ab"], ["ab", "b"])
  {
    var rate: seq<Token> := ["ab"];
    var words: seq<Token> := ["ab", "b"];
    var runs: seq<seq<Token>> := [words];
    assert StandsFor(rate[0], words) by {
      assert words[1..] == ["b"] && words[1..][1..] == [];
      assert Initials(words[1..][1..]) == "";
      assert Initials(words[1..]) == "b";
      assert Initials(words) == "ab";
    }
    assert Flatten(runs) == words by { assert runs[1..] == []; assert Flatten(runs[1..]) == []; }
    hide StandsFor; hide Flatten;
    assert Segmentation(rate, words, runs);
  }

  lemma {:induction false} MatchesItself(tokens: seq<Token>)
    ensures Scan(tokens, tokens)
  {
    if tokens != [] { MatchesItself(tokens[1..]); }
  }

  // ----- Denominators and aliases ----------------------------------------------------------------

  /** The name tests and the token extraction. */
  datatype Names = Names(isRequest: string -> bool, isRate: string -> bool, tokens: string -> seq<Token>)

  /** The request columns among the first n that a rate name matches. */
  function Candidates(names: Names, header: seq<string>, name: string, n: nat): (columns: seq<nat>)
    requires n <= |header|
    ensures forall j :: j in columns ==> j < n
  {
    if n == 0 then []
    else
      var tokens := names.tokens(header[n - 1]);
      Candidates(names, header, name, n - 1) +
      if names.isRequest(header[n - 1]) && tokens != [] && Scan(names.tokens(name), tokens) then [n - 1] else []
  }

  /** The denominator column of a rate name: its one and only candidate. */
  function Denominator(names: Names, header: seq<string>, name: string): Option<nat> {
    var columns := Candidates(names, header, name, |header|);
    if names.isRate(name) && names.tokens(name) != [] && |columns| == 1 then Some(columns[0]) else None
  }

  method RequestColumns(names: Names, header: seq<string>) returns (columns: seq<(nat, seq<Token>)>)
    ensures forall k :: 0 <= k < |columns| ==>
      columns[k].0 < |header| && columns[k].1 == names.tokens(header[columns[k].0])
    ensures forall name :: Filtered(names, name, columns) == Candidates(names, header, name, |header|)
  {
    columns := [];
    for n := 0 to |header|
      invariant forall k :: 0 <= k < |columns| ==>
        columns[k].0 < |header| && columns[k].1 == names.tokens(header[columns[k].0])
      invariant forall name :: Filtered(names, name, columns) == Candidates(names, header, name, n)
    {
      if names.isRequest(header[n]) {
        var tokens := names.tokens(header[n]);
        if tokens != [] {
          ghost var before := columns;
          columns := columns + [(n, tokens)];
          assert columns[..|columns| - 1] == before;
        }
      }
    }
  }

  /** The request columns a rate name matches, out of a list of columns with their tokens. */
  function Filtered(names: Names, name: string, columns: seq<(nat, seq<Token>)>): seq<nat> {
    if columns == [] then []
    else
      var last := columns[|columns| - 1];
      Filtered(names, name, columns[..|columns| - 1]) + if Scan(names.tokens(name), last.1) then [last.0] else []
  }

  /** The candidates of one rate column, and its denominator if they are just one. */
  method FindDenominator(names: Names, header: seq<string>, columns: seq<(nat, seq<Token>)>, name: string)
    returns (denominator: Option<nat>)
    requires Filtered(names, name, columns) == Candidates(names, header, name, |header|)
    ensures denominator == Denominator(names, header, name)
  {
    hide Scan; hide Candidates;
    if !names.isRate(name) { return None; }
    var tokens := names.tokens(name);
    if tokens == [] { return None; }
    var candidates: seq<nat> := [];
    for k := 0 to |columns|
      invariant candidates == Filtered(names, name, columns[..k])
    {
      assert columns[..k + 1][..k] == columns[..k];
      var matched := TokensMatch(tokens, columns[k].1);
      if matched { candidates := candidates + [columns[k].0]; }
    }
    assert columns[..|columns|] == columns;
    denominator := if |candidates| == 1 then Some(candidates[0]) else None;
  }

  /** _success_rate_denominator_indices; a dictionary that remembers the order of its keys. */
  method DenominatorIndices(names: Names, header: seq<string>) returns (keys: seq<nat>, denominators: map<nat, nat>)
    ensures forall i: nat :: i in keys <==> i in denominators
    ensures forall a, b :: 0 <= a < b < |keys| ==> keys[a] < keys[b]
    ensures forall i: nat :: i in denominators <==> i < |header| && Denominator(names, header, header[i]).Some?
    ensures forall i: nat :: i in denominators ==> Denominator(names, header, header[i]) == Some(denominators[i])
  {
    hide Denominator; hide Filtered; hide Candidates;
    var columns := RequestColumns(names, header);
    keys, denominators := [], map[];
    for n := 0 to |header|
      invariant forall i: nat :: i in keys <==> i in denominators
      invariant forall k :: k in keys ==> k < n
      invariant forall a, b :: 0 <= a < b < |keys| ==> keys[a] < keys[b]
      invariant forall i: nat :: i in denominators <==> i < n && Denominator(names, header, header[i]).Some?
      invariant forall i: nat :: i in denominators ==> Denominator(names, header, header[i]) == Some(denominators[i])
    {
      var denominator := FindDenominator(names, header, columns, header[n]);
      if denominator.Some? {
        assert forall a :: 0 <= a < |keys| ==> keys[a] in keys;
        keys, denominators := keys + [n], denominators[n := denominator.value];
      }
    }
  }

  /** The rate names of a denominator column, in column order. */
  function Group(names: Names, header: seq<string>, column: nat, n: nat): seq<string>
    requires n <= |header|
  {
    if n == 0 then []
    else Group(names, header, column, n - 1) +
         if Denominator(names, header, header[n - 1]) == Some(column) then [header[n - 1]] else []
  }

  /** The canonical name of a rate name that has company in its group. */
  function Canonical(names: Names, header: seq<string>, name: string): Option<string> {
    match Denominator(names, header, name)
    case None => None
    case Some(column) =>
      var group := Group(names, header, column, |header|);
      if |group| < 2 then None else Some(group[0])
  }

  lemma {:induction false} GroupMembers(names: Names, header: seq<string>, column: nat, n: nat)
    requires n <= |header|
    ensures forall x ::
      x in Group(names, header, column, n) <==> x in header[..n] && Denominator(names, header, x) == Some(column)
  {
    if n > 0 {
      GroupMembers(names, header, column, n - 1);
      hide Denominator;
      assert header[..n] == header[..n - 1] + [header[n - 1]];
    }
  }

  /** The groups after the first columns of a header: for each denominator column its rate names. */
  ghost predicate Grouped(names: Names, header: seq<string>, n: nat, groups: map<nat, seq<string>>) {
    && n <= |header|
    && forall column: nat ::
         if column in groups then groups[column] == Group(names, header, column, n) != []
         else Group(names, header, column, n) == []
  }

  lemma {:induction false} GroupedMore(names: Names, header: seq<string>, n: nat, groups: map<nat, seq<string>>)
    requires n < |header| && Grouped(names, header, n, groups)
    ensures
      match Denominator(names, header, header[n])
      case None => Grouped(names, header, n + 1, groups)
      case Some(column) =>
        Grouped(names, header, n + 1,
                groups[column := (if column in groups then groups[column] else []) + [header[n]]])
  {
    hide Denominator;
    forall column: nat
      ensures Group(names, header, column, n + 1)
           == Group(names, header, column, n) + if Denominator(names, header, header[n]) == Some(column) then
             [header[n]] else [] { }
    hide Group;
  }

  lemma {:induction false} GroupStep(names: Names, header: seq<string>, n: nat, m: nat, groups: map<nat, seq<string>>)
    requires n <= m < |header| && Grouped(names, header, n, groups)
    requires forall i :: n <= i < m ==> Denominator(names, header, header[i]).None?
    ensures Grouped(names, header, m, groups)
    ensures
      match Denominator(names, header, header[m])
      case None => Grouped(names, header, m + 1, groups)
      case Some(column) =>
        Grouped(names, header, m + 1,
                groups[column := (if column in groups then groups[column] else []) + [header[m]]])
    decreases m - n
  {
    hide Denominator; hide Grouped;
    GroupedMore(names, header, n, groups);
    if n < m { GroupStep(names, header, n + 1, m, groups); }
  }

  /** The inner loop: one group's names all get its first name. */
  method AliasGroup(aliases0: map<string, string>, rawNames: seq<string>, canonical: string)
    returns (aliases: map<string, string>)
    ensures forall x :: x in aliases <==> x in aliases0 || x in rawNames
    ensures forall x :: x in aliases ==> aliases[x] == if x in rawNames then canonical else aliases0[x]
  {
    aliases := aliases0;
    for k := 0 to |rawNames|
      invariant forall x :: x in aliases <==> x in aliases0 || x in rawNames[..k]
      invariant forall x :: x in aliases ==> aliases[x] == if x in rawNames[..k] then canonical else aliases0[x]
    {
      assert rawNames[..k + 1] == rawNames[..k] + [rawNames[k]];
      aliases := aliases[rawNames[k] := canonical];
    }
    assert rawNames[..|rawNames|] == rawNames;
  }

  /** The aliases of the groups of some denominator columns. */
  ghost predicate AliasesOf(names: Names, header: seq<string>, columns: set<nat>, aliases: map<string, string>) {
    && (forall x :: x in aliases <==> InGroups(names, header, x, columns))
    && (forall x :: x in aliases ==> Canonical(names, header, x) == Some(aliases[x]))
  }

  /** A group of one name adds no alias; a larger one sends all its names to its first. */
  lemma {:induction false} AddGroup(names: Names, header: seq<string>, columns: set<nat>, column: nat,
                                    aliases0: map<string, string>, aliases: map<string, string>)
    requires AliasesOf(names, header, columns, aliases0)
    requires
      var group := Group(names, header, column, |header|);
      if |group| < 2 then
        aliases == aliases0
      else
        && (forall x :: x in aliases <==> x in aliases0 || x in group)
        && (forall x :: x in aliases ==> aliases[x] == if x in group then group[0] else aliases0[x])
    ensures AliasesOf(names, header, columns + {column}, aliases)
  {
    var group := Group(names, header, column, |header|);
    forall x
      ensures InGroups(names, header, x, columns + {column})
        <==> InGroups(names, header, x, columns) || (x in group && |group| >= 2)
      ensures x in group && |group| >= 2 ==> Canonical(names, header, x) == Some(group[0])
    {
      InOneMore(names, header, columns, column, x);
    }
    hide InGroups; hide Canonical; hide Group;
  }

  lemma {:induction false} InOneMore(names: Names, header: seq<string>, columns: set<nat>, column: nat, x: string)
    ensures
      var group := Group(names, header, column, |header|);
      && (InGroups(names, header, x, columns + {column}) <==>
          InGroups(names, header, x, columns) || (x in group && |group| >= 2))
      && (x in group && |group| >= 2 ==> Canonical(names, header, x) == Some(group[0]))
  {
    GroupMembers(names, header, column, |header|);
    assert header[..|header|] == header;
    hide Denominator; hide Group;
  }

  /** _success_rate_alias_canonical_names. The groups are visited in an arbitrary order. */
  method AliasCanonicalNames(names: Names, header: seq<string>) returns (aliases: map<string, string>)
    ensures forall x :: x in aliases <==> x in header && Canonical(names, header, x).Some?
    ensures forall x :: x in aliases ==> Canonical(names, header, x) == Some(aliases[x])
  {
    var keys, denominators := DenominatorIndices(names, header);
    var groups := Groups(names, header, keys, denominators);
    aliases := map[];
    var left := groups.Keys;
    ghost var visited: set<nat> := {};
    hide Group; hide AliasesOf; hide InGroups; hide Canonical; hide Denominator;
    assert AliasesOf(names, header, {}, aliases);
    while left != {}
      invariant left !! visited && left + visited == groups.Keys
      invariant AliasesOf(names, header, visited, aliases)
      decreases left
    {
      var column :| column in left;
      var rawNames := groups[column];
      ghost var aliases0, visited0 := aliases, visited;
      left, visited := left - {column}, visited + {column};
      if |rawNames| >= 2 {
        aliases := AliasGroup(aliases, rawNames, rawNames[0]);
      }
      AddGroup(names, header, visited0, column, aliases0, aliases);
    }
    assert visited == groups.Keys;
  }

  ghost predicate InGroups(names: Names, header: seq<string>, x: string, columns: set<nat>) {
    && x in header && Canonical(names, header, x).Some?
    && Denominator(names, header, x).value in columns
  }

  /** The grouping loop over the denominator dictionary. */
  method Groups(names: Names, header: seq<string>, keys: seq<nat>, denominators: map<nat, nat>)
    returns (groups: map<nat, seq<string>>)
    requires forall i: nat :: i in keys <==> i in denominators
    requires forall a, b :: 0 <= a < b < |keys| ==> keys[a] < keys[b]
    requires forall i: nat :: i in denominators <==> i < |header| && Denominator(names, header, header[i]).Some?
    requires forall i: nat :: i in denominators ==> Denominator(names, header, header[i]) == Some(denominators[i])
    ensures Grouped(names, header, |header|, groups)
  {
    hide Denominator; hide Grouped;
    groups := map[];
    ghost var done := 0;
    EmptyGroups(names, header);
    for k := 0 to |keys|
      invariant done <= |header| && Grouped(names, header, done, groups)
      invariant forall a :: 0 <= a < k ==> keys[a] < done
      invariant forall a :: k <= a < |keys| ==> done <= keys[a]
    {
      var i := keys[k];
      assert i in keys;
      forall j | done <= j < i ensures Denominator(names, header, header[j]).None? { }
      GroupStep(names, header, done, i, groups);
      var column := denominators[i];
      groups := groups[column := (if column in groups then groups[column] else []) + [header[i]]];
      done := i + 1;
    }
    forall j | done <= j < |header| ensures Denominator(names, header, header[j]).None? {
      assert forall a :: 0 <= a < |keys| ==> keys[a] < done;
    }
    NoMoreGroups(names, header, done, groups);
  }

  lemma {:induction false} EmptyGroups(names: Names, header: seq<string>)
    ensures Grouped(names, header, 0, map[])
  {
  }

  lemma {:induction false} NoMoreGroups(names: Names, header: seq<string>, n: nat, groups: map<nat, seq<string>>)
    requires n <= |header| && Grouped(names, header, n, groups)
    requires forall i :: n <= i < |header| ==> Denominator(names, header, header[i]).None?
    ensures Grouped(names, header, |header|, groups)
  {
    hide Denominator; hide Grouped;
    if n < |header| { GroupStep(names, header, n, |header| - 1, groups); }
  }

  /** The alias map is idempotent, sends exactly the names of one denominator column to one name, and
      keeps that column. */
  lemma {:induction false} AliasesShareDenominator(names: Names, header: seq<string>, x: string, y: string)
    requires x in header && y in header
    requires Canonical(names, header, x).Some? && Canonical(names, header, y).Some?
    ensures
      var c := Canonical(names, header, x).value;
      c in header && Canonical(names, header, c) == Some(c)
      && Denominator(names, header, c) == Denominator(names, header, x)
      && (Canonical(names, header, x) == Canonical(names, header, y) <==>
          Denominator(names, header, x) == Denominator(names, header, y))
  {
    hide Denominator; hide Group;
    var a, b := Denominator(names, header, x).value, Denominator(names, header, y).value;
    GroupMembers(names, header, a, |header|);
    GroupMembers(names, header, b, |header|);
    assert header[..|header|] == header;
    assert Group(names, header, a, |header|)[0] in Group(names, header, a, |header|);
    assert Group(names, header, b, |header|)[0] in Group(names, header, b, |header|);
  }
}
