/** The pieces of java.lang the dispatch core relies on: nullable references,
    the String operations it calls (split on a single character, join, contains,
    lastIndexOf, toLowerCase, integer concatenation) and exception cause chains. */
module JavaLang {

  /** A Java reference that may be null. */
  datatype Option<+T> = None | Some(value: T)

  /** Java's `"" + o` for a nullable string: null prints as "null". */
  function Show(o: Option<string>): string {
    match o
    case None => "null"
    case Some(s) => s
  }

  /** `o == null || o.isEmpty()`. */
  predicate NullOrEmpty(o: Option<string>) {
    o.None? || o.value == ""
  }

  // ---------------------------------------------------------------------------
  // contains / lastIndexOf

  /** `t` occurs in `s` at index `i`. */
  predicate OccursAt(s: string, t: string, i: int) {
    0 <= i <= |s| - |t| && s[i..i + |t|] == t
  }

  /** Java's `s.contains(t)`. */
  predicate Contains(s: string, t: string) {
    exists i | 0 <= i <= |s| - |t| :: OccursAt(s, t, i)
  }

  /** The greatest index `j <= k` at which `t` occurs in `s`, or -1. */
  function LastIndexAtOrBelow(s: string, t: string, k: int): (r: int)
    decreases k + 1
    ensures r == -1 ==> forall j | 0 <= j <= k :: !OccursAt(s, t, j)
    ensures r != -1 ==> 0 <= r <= k && OccursAt(s, t, r)
    ensures r != -1 ==> forall j | r < j <= k :: !OccursAt(s, t, j)
  {
    if k < 0 then -1
    else if OccursAt(s, t, k) then k
    else LastIndexAtOrBelow(s, t, k - 1)
  }

  /** Java's `s.lastIndexOf(t)`: the last index where `t` occurs, -1 when it
      does not occur at all. */
  function LastIndexOf(s: string, t: string): (r: int)
    ensures r == -1 <==> !Contains(s, t)
    ensures r != -1 ==> OccursAt(s, t, r)
    ensures r != -1 ==> forall j | r < j <= |s| - |t| :: !OccursAt(s, t, j)
  {
    LastIndexAtOrBelow(s, t, |s| - |t|)
  }

  // ---------------------------------------------------------------------------
  // toLowerCase

  /** Lower-casing of one character; only the ASCII letters A-Z are folded. */
  function LowerChar(c: char): char {
    if 'A' <= c <= 'Z' then (c as int + 32) as char else c
  }

  /** Java's `s.toLowerCase()`, restricted to ASCII case folding. */
  function ToLowerCase(s: string): string {
    seq(|s|, i requires 0 <= i < |s| => LowerChar(s[i]))
  }

  // ---------------------------------------------------------------------------
  // split / join

  /** Every piece of `s` between occurrences of `c`, trailing empty pieces
      included: `SplitAll(s, c)` always has one more piece than `s` has `c`s. */
  function SplitAll(s: string, c: char): (r: seq<string>)
    ensures |r| >= 1
    ensures forall p | p in r :: c !in p
  {
    if s == [] then [""]
    else
      var init := SplitAll(s[..|s| - 1], c);
      var last := s[|s| - 1];
      if last == c then init + [""]
      else init[..|init| - 1] + [init[|init| - 1] + [last]]
  }

  /** Drops the empty pieces at the end of `ps`. */
  function DropTrailingEmpty(ps: seq<string>): (r: seq<string>)
    ensures |r| <= |ps| && r == ps[..|r|]
    ensures r == [] || r[|r| - 1] != ""
  {
    if ps != [] && ps[|ps| - 1] == "" then DropTrailingEmpty(ps[..|ps| - 1]) else ps
  }

  /** Java's `s.split(String.valueOf(c))` for a character that is not a regex
      metacharacter: when `c` does not occur the result is `[s]` (even for the
      empty string); otherwise the pieces with the trailing empty ones removed. */
  function Split(s: string, c: char): seq<string> {
    if c !in s then [s] else DropTrailingEmpty(SplitAll(s, c))
  }

  /** Java's `String.join(sep, parts)`. */
  function Join(sep: string, ps: seq<string>): string {
    if ps == [] then ""
    else if |ps| == 1 then ps[0]
    else Join(sep, ps[..|ps| - 1]) + sep + ps[|ps| - 1]
  }

  /** `s` with every `c` replaced by `d`. */
  function ReplaceChar(s: string, c: char, d: char): string {
    seq(|s|, i requires 0 <= i < |s| => if s[i] == c then d else s[i])
  }

  /** `s` without its trailing run of `c`s. */
  function TrimTrailing(s: string, c: char): (r: string)
    ensures |r| <= |s| && r == s[..|r|]
    ensures r == [] || r[|r| - 1] != c
    ensures forall k | |r| <= k < |s| :: s[k] == c
  {
    if s != [] && s[|s| - 1] == c then TrimTrailing(s[..|s| - 1], c) else s
  }

  /** Joining the pieces of `s` with `d` gives back `s` with each `c` replaced by `d`. */
  lemma {:induction false} JoinSplitAll(s: string, c: char, d: char)
    ensures Join([d], SplitAll(s, c)) == ReplaceChar(s, c, d)
  {
    if s != [] {
      var init, last := s[..|s| - 1], s[|s| - 1];
      JoinSplitAll(init, c, d);
      ReplaceCharSnoc(init, last, c, d);
      assert init + [last] == s;
      var ps := SplitAll(init, c);
      if last == c {
        JoinSnocEmpty(ps, [d]);
      } else {
        JoinExtendLast(ps, [d], last);
      }
    }
  }

  lemma ReplaceCharSnoc(s: string, x: char, c: char, d: char)
    ensures ReplaceChar(s + [x], c, d) == ReplaceChar(s, c, d) + [if x == c then d else x]
  {
  }

  /** A new empty last piece adds one separator. */
  lemma JoinSnocEmpty(ps: seq<string>, sep: string)
    requires ps != []
    ensures Join(sep, ps + [""]) == Join(sep, ps) + sep
  {
    assert (ps + [""])[..|ps|] == ps;
  }

  /** Extending the last piece extends the joined string. */
  lemma JoinExtendLast(ps: seq<string>, sep: string, x: char)
    requires ps != []
    ensures Join(sep, ps[..|ps| - 1] + [ps[|ps| - 1] + [x]]) == Join(sep, ps) + [x]
  {
    var n := |ps|;
    var qs := ps[..n - 1] + [ps[n - 1] + [x]];
    if n > 1 {
      assert qs[..n - 1] == ps[..n - 1];
    }
  }

  /** Without a separator there is one piece, the whole string. */
  lemma {:induction false} SplitAllWithout(s: string, c: char)
    requires c !in s
    ensures SplitAll(s, c) == [s]
  {
    if s != [] {
      var init := s[..|s| - 1];
      assert forall x | x in init :: x in s;
      SplitAllWithout(init, c);
      assert init + [s[|s| - 1]] == s;
    }
  }

  /** Splitting a string that ends in `c` adds one empty piece. */
  lemma SplitAllAppend(s: string, c: char)
    ensures SplitAll(s + [c], c) == SplitAll(s, c) + [""]
  {
    assert (s + [c])[..|s|] == s;
  }

  /** Dropping the trailing empty pieces of `SplitAll(s, c)` is splitting `s`
      without its trailing `c`s. */
  lemma {:induction false} DropTrailingSplitAll(s: string, c: char)
    ensures DropTrailingEmpty(SplitAll(s, c))
         == (var t := TrimTrailing(s, c); if t == [] then [] else SplitAll(t, c))
  {
    if s != [] && s[|s| - 1] == c {
      var init := s[..|s| - 1];
      assert s == init + [c];
      SplitAllAppend(init, c);
      var ps := SplitAll(init, c);
      assert (ps + [""])[..|ps|] == ps;
      DropTrailingSplitAll(init, c);
    }
  }

  /** `split` followed by `join` rewrites every `c` to `d` and drops the
      trailing run of `c`s; this is what canonicalises an address list. */
  lemma JoinSplit(s: string, c: char, d: char)
    ensures Join([d], Split(s, c)) == ReplaceChar(TrimTrailing(s, c), c, d)
  {
    var t := TrimTrailing(s, c);
    if c !in s {
      assert s == [] || s[|s| - 1] != c;
      assert ReplaceChar(s, c, d) == s;
    } else {
      DropTrailingSplitAll(s, c);
      if t != [] {
        JoinSplitAll(t, c, d);
      }
    }
  }

  /** Every character of every piece of `SplitAll(s, c)` is a character of `s`. */
  lemma {:induction false} SplitAllChars(s: string, c: char)
    ensures forall p, x | p in SplitAll(s, c) && x in p :: x in s
  {
    if s != [] {
      var init := s[..|s| - 1];
      SplitAllChars(init, c);
      forall p, x | p in SplitAll(s, c) && x in p
        ensures x in s
      {
        var ps := SplitAll(init, c);
        if s[|s| - 1] != c && p == ps[|ps| - 1] + [s[|s| - 1]] {
          if x != s[|s| - 1] {
            assert x in ps[|ps| - 1];
            assert x in init;
          }
        } else if p != "" {
          assert p in ps;
          assert x in init;
        }
      }
    }
  }

  /** Every character of every piece of `Split(s, c)` is a character of `s` other than `c`. */
  lemma SplitChars(s: string, c: char)
    ensures forall p, x | p in Split(s, c) && x in p :: x in s && x != c
  {
    if c in s {
      SplitAllChars(s, c);
      var all := SplitAll(s, c);
      var r := DropTrailingEmpty(all);
      forall p | p in r ensures p in all {
        var k :| 0 <= k < |r| && r[k] == p;
        assert all[k] == p;
      }
    }
  }

  // ---------------------------------------------------------------------------
  // "" + int

  /** The decimal digits of `n`, as Java prints an `int` that is not negative. */
  function NatToString(n: nat): (r: string)
    ensures |r| >= 1
    decreases n
  {
    var digit := ['0' + ((n % 10) as char)];
    if n < 10 then digit else NatToString(n / 10) + digit
  }

  /** Different numbers print differently. */
  lemma {:induction false} NatToStringInjective(m: nat, n: nat)
    requires NatToString(m) == NatToString(n)
    ensures m == n
  {
    var sm, sn := NatToString(m), NatToString(n);
    assert sm[|sm| - 1] == '0' + ((m % 10) as char);
    assert sn[|sn| - 1] == '0' + ((n % 10) as char);
    if m >= 10 && n >= 10 {
      assert NatToString(m / 10) == sm[..|sm| - 1] == sn[..|sn| - 1] == NatToString(n / 10);
      NatToStringInjective(m / 10, n / 10);
    }
  }

  /** A printed number is made of decimal digits only. */
  lemma {:induction false} NatToStringDigits(n: nat)
    decreases n
    ensures forall k | 0 <= k < |NatToString(n)| :: '0' <= NatToString(n)[k] <= '9'
  {
    if n >= 10 {
      NatToStringDigits(n / 10);
    }
  }

  // ---------------------------------------------------------------------------
  // exceptions

  /** The exception classes the core tells apart (subclasses count as their parent). */
  datatype ExceptionKind =
    | PlainException      // java.lang.Exception thrown with a message only
    | IllegalArgument     // java.lang.IllegalArgumentException
    | NullPointer         // java.lang.NullPointerException
    | SocketTimeout       // java.net.SocketTimeoutException
    | ConnectTimeout      // org.apache.hc.client5.http.ConnectTimeoutException
    | OtherKind           // anything else a collaborator may throw

  /** One link of a cause chain: its class and its (nullable) message. */
  datatype Throwable = Throwable(kind: ExceptionKind, message: Option<string>)

  /** A thrown exception: the throwable itself and its finite `getCause()`
      chain, nearest cause first. */
  datatype Exception = Exception(top: Throwable, causes: seq<Throwable>)

  /** `new Exception(message)` / `new IllegalArgumentException(message)`: no cause. */
  function Raise(kind: ExceptionKind, message: string): Exception {
    Exception(Throwable(kind, Some(message)), [])
  }
}
