/** service/ConfigMapperService.java: the reader that turns a configuration
    value such as `{'A,B':'5000';'C':'100'}` into a name -> value map. */
module ConfigMapper {
  import opened JavaLang

  /** The characters removed before any splitting. */
  predicate IsBraceOrQuote(c: char) {
    c == '{' || c == '}' || c == '\''
  }

  /** `s.replaceAll("[{}']", "")`. */
  function StripBraces(s: string): (r: string)
    ensures |r| <= |s|
    ensures forall c | c in r :: !IsBraceOrQuote(c)
    ensures (forall c | c in s :: !IsBraceOrQuote(c)) ==> r == s
  {
    if s == [] then []
    else
      var last := s[|s| - 1];
      StripBraces(s[..|s| - 1]) + (if IsBraceOrQuote(last) then [] else [last])
  }

  /** A single character is dropped exactly when it is a brace or a quote. */
  lemma StripOne(c: char)
    ensures StripBraces([c]) == if IsBraceOrQuote(c) then [] else [c]
  {
    assert [c][..0] == [];
  }

  /** Stripping a string with one more character at the end. */
  lemma StripSnoc(s: string, c: char)
    ensures StripBraces(s + [c]) == StripBraces(s) + (if IsBraceOrQuote(c) then [] else [c])
  {
    var sc := s + [c];
    assert sc[..|sc| - 1] == s && sc[|sc| - 1] == c;
  }

  /** The removal works character by character: stripping a concatenation
      strips each part and keeps them in order. */
  lemma {:induction false} StripAppend(a: string, b: string)
    decreases |b|
    ensures StripBraces(a + b) == StripBraces(a) + StripBraces(b)
  {
    if b == [] {
      assert a + b == a;
      assert StripBraces(a) + StripBraces(b) == StripBraces(a);
    } else {
      var init, last := b[..|b| - 1], b[|b| - 1];
      assert b == init + [last];
      StripAppend(a, init);
      StripAppendSnoc(a, init, last);
    }
  }

  /** The inductive step of StripAppend: one more character at the end. */
  lemma StripAppendSnoc(a: string, init: string, last: char)
    requires StripBraces(a + init) == StripBraces(a) + StripBraces(init)
    ensures StripBraces(a + (init + [last])) == StripBraces(a) + StripBraces(init + [last])
  {
    var kept := if IsBraceOrQuote(last) then [] else [last];
    Associative(a, init, [last]);
    StripSnoc(a + init, last);
    StripSnoc(init, last);
    Associative(StripBraces(a), StripBraces(init), kept);
  }

  /** Helper for StripAppendSnoc only: stating associativity separately keeps
      the concatenation step there cheap for the solver. */
  lemma Associative(x: string, y: string, z: string)
    ensures x + (y + z) == (x + y) + z
  {
  }

  /** Every character other than a brace or a quote survives as often as it
      occurs, so whatever is left comes from the input. */
  lemma {:induction false} StripCounts(s: string)
    decreases |s|
    ensures forall c | !IsBraceOrQuote(c) :: multiset(StripBraces(s))[c] == multiset(s)[c]
    ensures forall c | c in StripBraces(s) :: c in s
  {
    if s != [] {
      var init, last := s[..|s| - 1], s[|s| - 1];
      assert s == init + [last];
      StripCounts(init);
      StripSnoc(init, last);
      var kept := if IsBraceOrQuote(last) then [] else [last];
      assert multiset(StripBraces(s)) == multiset(StripBraces(init)) + multiset(kept);
      assert multiset(s) == multiset(init) + multiset([last]);
      forall c | c in StripBraces(s) ensures c in s {
        assert multiset(StripBraces(s))[c] > 0;
      }
    }
  }

  /** The names of a group: the part before its first ':' split on ','. Only
      defined for a group that `split(":")` does not empty. */
  function GroupNames(keyValue: seq<string>): seq<string>
    requires keyValue != []
  {
    Split(keyValue[0], ',')
  }

  /** The value of a group: the part between its first and second ':', or null
      when `keyValue[1]` throws. */
  function GroupValue(keyValue: seq<string>): Option<string> {
    if |keyValue| >= 2 then Some(keyValue[1]) else None
  }

  /** A group made only of ':' characters: `split(":")` returns no piece and
      `keyValue[0]` throws out of the loop. */
  predicate Aborts(group: string) {
    Split(group, ':') == []
  }

  /** The inner loop: `map.put(name, value)` for every name. */
  function PutAll(m: map<string, Option<string>>, names: seq<string>, value: Option<string>): map<string, Option<string>>
    decreases names
  {
    if names == [] then m else PutAll(m[names[0] := value], names[1..], value)
  }

  /** The outer loop over the remaining groups; the map built so far is the
      result when a group aborts. */
  function ParseGroups(m: map<string, Option<string>>, groups: seq<string>): map<string, Option<string>>
    decreases groups
  {
    if groups == [] then m
    else
      var keyValue := Split(groups[0], ':');
      if keyValue == [] then m
      else ParseGroups(PutAll(m, GroupNames(keyValue), GroupValue(keyValue)), groups[1..])
  }

  /** What the reader returns: empty for null (the NullPointerException is
      caught), otherwise the groups of the cleaned input parsed in order. */
  function ConfigMap(input: Option<string>): map<string, Option<string>> {
    match input
    case None => map[]
    case Some(s) => ParseGroups(map[], Split(StripBraces(s), ';'))
  }

  /** `configServerMapValueReader(input)`. */
  method ConfigServerMapValueReader(input: Option<string>) returns (m: map<string, Option<string>>)
    ensures m == ConfigMap(input)
    ensures input.None? ==> m == map[]
  {
    m := map[];
    if input.None? {
      return;
    }
    var cleanInput := StripBraces(input.value);
    var pairs := Split(cleanInput, ';');
    for i := 0 to |pairs|
      invariant ParseGroups(m, pairs[i..]) == ConfigMap(input)
    {
      assert pairs[i..][0] == pairs[i] && pairs[i..][1..] == pairs[i + 1..];
      var keyValue := Split(pairs[i], ':');
      if keyValue == [] {
        return;
      }
      var currencies := Split(keyValue[0], ',');
      var value: Option<string> := None;
      if |keyValue| >= 2 {
        value := Some(keyValue[1]);
      }
      m := PutNames(m, currencies, value);
    }
  }

  /** The inner loop of the reader: `map.put(currency, value)` for every name. */
  method PutNames(m0: map<string, Option<string>>, currencies: seq<string>, value: Option<string>)
    returns (m: map<string, Option<string>>)
    ensures m == PutAll(m0, currencies, value)
  {
    m := m0;
    for j := 0 to |currencies|
      invariant PutAll(m, currencies[j..], value) == PutAll(m0, currencies, value)
    {
      assert currencies[j..][1..] == currencies[j + 1..];
      m := m[currencies[j] := value];
    }
  }

  // ---------------------------------------------------------------------------
  // Properties

  /** `PutAll` is a map update: the names get the value, everything else stays. */
  lemma {:induction false} PutAllUpdates(m: map<string, Option<string>>, names: seq<string>, value: Option<string>)
    decreases names
    ensures var r := PutAll(m, names, value);
      && (forall k :: k in r <==> k in m || k in names)
      && (forall k | k in names :: r[k] == value)
      && (forall k | k in m && k !in names :: r[k] == m[k])
  {
    if names != [] {
      var next := m[names[0] := value];
      PutAllUpdates(next, names[1..], value);
      assert names == [names[0]] + names[1..];
      var r := PutAll(m, names, value);
      assert r == PutAll(next, names[1..], value);
      forall k ensures k in r <==> k in m || k in names {
        assert k in next <==> k in m || k == names[0];
      }
    }
  }

  /** A group without a value part, whether a bare list of names or one whose
      only ':' is its last character, does not stop the parse and maps its
      names to null. */
  lemma GroupWithoutValue(names: string)
    requires ':' !in names
    ensures Split(names, ':') == [names] && !Aborts(names) && GroupValue(Split(names, ':')) == None
    ensures names != "" ==> var keyValue := Split(names + ":", ':');
      keyValue == [names] && !Aborts(names + ":") && GroupValue(keyValue) == None
  {
    if names != "" {
      SplitAllWithout(names, ':');
      SplitAllAppend(names, ':');
      assert ':' in names + ":" by { assert (names + ":")[|names|] == ':'; }
      assert DropTrailingEmpty([names, ""]) == DropTrailingEmpty([names]);
    }
  }

  /** No group aborts. */
  predicate NoneAborts(groups: seq<string>) {
    forall i | 0 <= i < |groups| :: !Aborts(groups[i])
  }

  /** The names of group `i`. */
  function NamesOf(groups: seq<string>, i: nat): seq<string>
    requires i < |groups| && !Aborts(groups[i])
  {
    GroupNames(Split(groups[i], ':'))
  }

  /** A name ends with the value of the last group that names it; names that
      no group names keep their old binding. */
  lemma {:induction false} LastGroupWins(m: map<string, Option<string>>, groups: seq<string>, i: nat, k: string)
    decreases groups
    requires NoneAborts(groups)
    requires i < |groups| && k in NamesOf(groups, i)
    requires forall j | i < j < |groups| :: k !in NamesOf(groups, j)
    ensures var r := ParseGroups(m, groups);
      k in r && r[k] == GroupValue(Split(groups[i], ':'))
  {
    var keyValue := Split(groups[0], ':');
    var next := PutAll(m, GroupNames(keyValue), GroupValue(keyValue));
    assert ParseGroups(m, groups) == ParseGroups(next, groups[1..]);
    var rest := groups[1..];
    TailNoneAborts(groups);
    forall j | i - 1 < j < |rest| ensures k !in NamesOf(rest, j) {
      assert rest[j] == groups[j + 1];
      assert NamesOf(rest, j) == NamesOf(groups, j + 1);
    }
    if i == 0 {
      PutAllUpdates(m, GroupNames(keyValue), GroupValue(keyValue));
      UnnamedKept(next, rest, k);
    } else {
      LastGroupWins(next, rest, i - 1, k);
    }
  }

  lemma TailNoneAborts(groups: seq<string>)
    requires groups != [] && NoneAborts(groups)
    ensures NoneAborts(groups[1..])
  {
    forall j | 0 <= j < |groups| - 1 ensures !Aborts(groups[1..][j]) {
      assert groups[1..][j] == groups[j + 1];
    }
  }

  /** A name that no group names keeps its binding. */
  lemma {:induction false} UnnamedKept(m: map<string, Option<string>>, groups: seq<string>, k: string)
    decreases groups
    requires NoneAborts(groups)
    requires forall j | 0 <= j < |groups| :: k !in NamesOf(groups, j)
    ensures var r := ParseGroups(m, groups);
      (k in r <==> k in m) && (k in m ==> r[k] == m[k])
  {
    if groups != [] {
      var keyValue := Split(groups[0], ':');
      var next := PutAll(m, GroupNames(keyValue), GroupValue(keyValue));
      PutAllUpdates(m, GroupNames(keyValue), GroupValue(keyValue));
      var rest := groups[1..];
      TailNoneAborts(groups);
      forall j | 0 <= j < |rest| ensures k !in NamesOf(rest, j) {
        assert rest[j] == groups[j + 1];
        assert NamesOf(rest, j) == NamesOf(groups, j + 1);
      }
      assert k !in NamesOf(groups, 0);
      UnnamedKept(next, rest, k);
    }
  }

  /** Parsing stops at the first group that aborts: the result is the map built
      from the groups before it. */
  lemma {:induction false} AbortKeepsPrefix(m: map<string, Option<string>>, groups: seq<string>, i: nat)
    decreases groups
    requires i < |groups| && Aborts(groups[i]) && NoneAborts(groups[..i])
    ensures ParseGroups(m, groups) == ParseGroups(m, groups[..i])
  {
    if i > 0 {
      var keyValue := Split(groups[0], ':');
      var prefix, rest := groups[..i], groups[1..];
      assert prefix[0] == groups[0] && !Aborts(groups[0]);
      var next := PutAll(m, GroupNames(keyValue), GroupValue(keyValue));
      assert rest[..i - 1] == prefix[1..];
      TailNoneAborts(prefix);
      AbortKeepsPrefix(next, rest, i - 1);
    }
  }

  /** No character in `s` is one of `cs`. */
  predicate Avoids(s: string, cs: set<char>) {
    forall c | c in s :: c !in cs
  }

  /** Every name and every value in the map avoids the given characters. */
  predicate MapAvoids(m: map<string, Option<string>>, keyChars: set<char>, valueChars: set<char>) {
    forall k | k in m :: Avoids(k, keyChars) && (m[k].Some? ==> Avoids(m[k].value, valueChars))
  }

  /** The characters no name can contain: the removed ones and the three separators. */
  const NameFree: set<char> := {'{', '}', '\'', ';', ':', ','}

  /** The characters no value can contain: the removed ones, ';' and ':'. */
  const ValueFree: set<char> := {'{', '}', '\'', ';', ':'}

  /** Parsing groups that hold no brace, quote or ';' adds only names free of
      all separators and values free of ':'. */
  lemma {:induction false} ParseGroupsAvoid(m: map<string, Option<string>>, groups: seq<string>)
    decreases groups
    requires MapAvoids(m, NameFree, ValueFree)
    requires forall g | g in groups :: Avoids(g, {'{', '}', '\'', ';'})
    ensures MapAvoids(ParseGroups(m, groups), NameFree, ValueFree)
  {
    if groups != [] {
      var keyValue := Split(groups[0], ':');
      if keyValue != [] {
        SplitChars(groups[0], ':');
        SplitChars(keyValue[0], ',');
        var names, value := GroupNames(keyValue), GroupValue(keyValue);
        PutAllUpdates(m, names, value);
        assert groups[0] in groups;
        assert keyValue[0] in keyValue;
        forall k | k in names ensures Avoids(k, NameFree) {
          forall c | c in k ensures c !in NameFree {
            assert c in keyValue[0] && c != ',';
            assert c in groups[0] && c != ':';
          }
        }
        if value.Some? {
          assert keyValue[1] in keyValue;
          forall c | c in value.value ensures c !in ValueFree {
            assert c in groups[0] && c != ':';
          }
        }
        assert forall g | g in groups[1..] :: g in groups;
        ParseGroupsAvoid(PutAll(m, names, value), groups[1..]);
      }
    }
  }

  /** Braces and quotes are removed before splitting: no name contains them or
      any separator, and no value contains them, ';' or ':'. */
  lemma ConfigMapClean(input: Option<string>)
    ensures MapAvoids(ConfigMap(input), NameFree, ValueFree)
  {
    if input.Some? {
      var clean := StripBraces(input.value);
      SplitChars(clean, ';');
      ParseGroupsAvoid(map[], Split(clean, ';'));
    }
  }
}
