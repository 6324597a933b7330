/** The JavaScript string built-ins the chat-turn handlers rely on: `\s` and `trim`,
    `includes`, `Array.prototype.join` and the global replace `/\n{2,}/g -> '\n'`.
    A `char` is one Unicode scalar value, so `|s|` is JavaScript's `s.length` for text
    inside the Basic Multilingual Plane; a character beyond it counts once here and twice
    in JavaScript. */
module JsString {

  /** The characters matched by `\s` and removed by `String.prototype.trim`:
      ECMAScript's WhiteSpace and LineTerminator code points. */
  predicate IsSpace(c: char) {
    c == '\t' || c == '\n' || c == '\U{000B}' || c == '\U{000C}' || c == '\r' || c == ' '
    || c == '\U{00A0}' || c == '\U{1680}' || ('\U{2000}' <= c <= '\U{200A}')
    || c == '\U{2028}' || c == '\U{2029}' || c == '\U{202F}' || c == '\U{205F}'
    || c == '\U{3000}' || c == '\U{FEFF}'
  }

  predicate AllSpace(s: string) {
    forall i :: 0 <= i < |s| ==> IsSpace(s[i])
  }

  /** The text of `s` with every whitespace character deleted: what a
      whitespace-only edit leaves unchanged. */
  function RemoveSpaces(s: string): (r: string)
    ensures |r| <= |s|
  {
    if s == [] then [] else (if IsSpace(s[0]) then [] else [s[0]]) + RemoveSpaces(s[1..])
  }

  lemma {:induction false} RemoveSpacesAppend(a: string, b: string)
    ensures RemoveSpaces(a + b) == RemoveSpaces(a) + RemoveSpaces(b)
  {
    if a == [] {
      assert a + b == b;
    } else {
      assert (a + b)[0] == a[0];
      assert (a + b)[1..] == a[1..] + b;
      RemoveSpacesAppend(a[1..], b);
      assert RemoveSpaces(a + b) == (if IsSpace(a[0]) then [] else [a[0]]) + RemoveSpaces(a[1..] + b);
    }
  }

  lemma {:induction false} RemoveSpacesOfSpace(s: string)
    requires AllSpace(s)
    ensures RemoveSpaces(s) == []
  {
    if s != [] {
      RemoveSpacesOfSpace(s[1..]);
    }
  }

  /** Whitespace between two texts is all that removal takes out of their concatenation. */
  lemma RemoveSpacesAround(a: string, w: string, b: string)
    requires AllSpace(w)
    ensures RemoveSpaces(a + w + b) == RemoveSpaces(a) + RemoveSpaces(b)
  {
    RemoveSpacesAppend(a + w, b);
    RemoveSpacesAppend(a, w);
    RemoveSpacesOfSpace(w);
  }

  /** `s.trimStart()`. */
  function TrimStart(s: string): (r: string)
    ensures |r| <= |s|
  {
    if |s| > 0 && IsSpace(s[0]) then TrimStart(s[1..]) else s
  }

  /** `s.trimEnd()`. */
  function TrimEnd(s: string): (r: string)
    ensures |r| <= |s|
  {
    if |s| > 0 && IsSpace(s[|s| - 1]) then TrimEnd(s[..|s| - 1]) else s
  }

  /** `s.trim()`. */
  function Trim(s: string): (r: string)
    ensures |r| <= |s|
  {
    TrimEnd(TrimStart(s))
  }

  /** `trimStart` removes exactly the leading whitespace: what it returns is a suffix
      that does not start with whitespace, and everything before it is whitespace. */
  lemma {:induction false} TrimStartShape(s: string)
    ensures TrimStart(s) == s[|s| - |TrimStart(s)|..]
    ensures TrimStart(s) == [] || !IsSpace(TrimStart(s)[0])
    ensures AllSpace(s[..|s| - |TrimStart(s)|])
  {
    if |s| > 0 && IsSpace(s[0]) {
      var r := TrimStart(s[1..]);
      TrimStartShape(s[1..]);
      assert s[..|s| - |r|] == [s[0]] + s[1..][..|s| - 1 - |r|];
    }
  }

  /** `trimEnd` removes exactly the trailing whitespace. */
  lemma {:induction false} TrimEndShape(s: string)
    ensures TrimEnd(s) == s[..|TrimEnd(s)|]
    ensures TrimEnd(s) == [] || !IsSpace(TrimEnd(s)[|TrimEnd(s)| - 1])
    ensures AllSpace(s[|TrimEnd(s)|..])
  {
    if |s| > 0 && IsSpace(s[|s| - 1]) {
      var r := TrimEnd(s[..|s| - 1]);
      TrimEndShape(s[..|s| - 1]);
      assert s[|r|..] == s[..|s| - 1][|r|..] + [s[|s| - 1]];
    }
  }

  /** The result of `trim` neither starts nor ends with whitespace. */
  lemma TrimShape(s: string)
    ensures Trim(s) == [] || (!IsSpace(Trim(s)[0]) && !IsSpace(Trim(s)[|Trim(s)| - 1]))
  {
    var t := TrimStart(s);
    TrimStartShape(s);
    TrimEndShape(t);
    var r := TrimEnd(t);
    assert r != [] ==> r[0] == t[0];
  }

  /** Trimming deletes whitespace only: all other text survives, in order. */
  lemma TrimKeepsText(s: string)
    ensures RemoveSpaces(Trim(s)) == RemoveSpaces(s)
  {
    var t := TrimStart(s);
    TrimStartShape(s);
    TrimEndShape(t);
    assert s == s[..|s| - |t|] + t;
    RemoveSpacesAppend(s[..|s| - |t|], t);
    RemoveSpacesOfSpace(s[..|s| - |t|]);
    var r := TrimEnd(t);
    assert t == r + t[|r|..];
    RemoveSpacesAppend(r, t[|r|..]);
    RemoveSpacesOfSpace(t[|r|..]);
  }

  /** A string without leading or trailing whitespace is its own trim. */
  lemma TrimOfTrimmed(s: string)
    requires s == [] || (!IsSpace(s[0]) && !IsSpace(s[|s| - 1]))
    ensures Trim(s) == s
  {
    if s != [] {
      assert TrimStart(s) == s;
    }
  }

  /** Trimming a string that ends in a non-space character keeps that character last. */
  lemma TrimKeepsLast(s: string)
    requires |s| > 0 && !IsSpace(s[|s| - 1])
    ensures |Trim(s)| > 0 && Trim(s)[|Trim(s)| - 1] == s[|s| - 1]
  {
    var t := TrimStart(s);
    TrimStartShape(s);
    TrimEndShape(t);
    assert !AllSpace(s[..|s|]) by {
      assert s[..|s|][|s| - 1] == s[|s| - 1];
    }
    assert t[|t| - 1] == s[|s| - 1];
  }

  /** `sub` occurs in `s` at index `i`. */
  predicate OccursAt(s: string, sub: string, i: nat) {
    i + |sub| <= |s| && s[i..i + |sub|] == sub
  }

  /** `s.includes(sub)`. */
  function Includes(s: string, sub: string): bool
    decreases |s|
  {
    if |s| < |sub| then false else s[..|sub|] == sub || Includes(s[1..], sub)
  }

  lemma {:induction false} IncludesIffOccurs(s: string, sub: string)
    ensures Includes(s, sub) <==> exists i: nat :: OccursAt(s, sub, i)
    decreases |s|
  {
    if |s| >= |sub| {
      if s[..|sub|] == sub {
        assert OccursAt(s, sub, 0);
      } else {
        IncludesIffOccurs(s[1..], sub);
        if Includes(s[1..], sub) {
          var i: nat :| OccursAt(s[1..], sub, i);
          assert s[1..][i..i + |sub|] == s[i + 1..i + 1 + |sub|];
          assert OccursAt(s, sub, i + 1);
        }
        if exists i: nat :: OccursAt(s, sub, i) {
          var i: nat :| OccursAt(s, sub, i);
          assert i != 0;
          assert s[1..][i - 1..i - 1 + |sub|] == s[i..i + |sub|];
          assert OccursAt(s[1..], sub, i - 1);
        }
      }
    } else {
      assert forall i: nat :: !OccursAt(s, sub, i);
    }
  }

  /** In `a + b + c + d`, `a` is a prefix, `b + c` occurs right after it and `d` is the
      suffix. */
  lemma ConcatLayout(a: string, b: string, c: string, d: string)
    ensures a <= a + b + c + d
    ensures OccursAt(a + b + c + d, b + c, |a|)
    ensures (a + b + c + d)[|a + b + c + d| - |d|..] == d
  {
    var r := a + b + c + d;
    assert r == a + (b + c) + d;
    assert r[..|a|] == a;
    assert r[|a|..|a| + |b + c|] == b + c;
  }

  /** The concatenation of `parts`. */
  function Concat(parts: seq<string>): string {
    if parts == [] then "" else parts[0] + Concat(parts[1..])
  }

  lemma ConcatCons(head: string, rest: seq<string>)
    ensures Concat([head] + rest) == head + Concat(rest)
    ensures Concat([head]) == head
  {
    assert ([head] + rest)[1..] == rest;
    assert [head][1..] == [];
    assert head + "" == head;
  }

  /** `parts.join(sep)`. */
  function Join(parts: seq<string>, sep: string): string {
    if |parts| == 0 then ""
    else if |parts| == 1 then parts[0]
    else parts[0] + sep + Join(parts[1..], sep)
  }

  lemma JoinStartsWithFirst(parts: seq<string>, sep: string)
    requires |parts| > 0
    ensures parts[0] <= Join(parts, sep)
  {
  }

  /** Joining with a blank adds whitespace only. */
  lemma {:induction false} JoinWithBlankKeepsText(parts: seq<string>)
    ensures RemoveSpaces(Join(parts, " ")) == RemoveSpaces(Concat(parts))
  {
    if |parts| == 1 {
      assert parts[1..] == [];
      assert Concat(parts) == parts[0] + Concat([]) == parts[0] + "" == parts[0];
    } else if |parts| > 1 {
      JoinWithBlankKeepsText(parts[1..]);
      RemoveSpacesAppend(parts[0] + " ", Join(parts[1..], " "));
      RemoveSpacesAppend(parts[0], " ");
      RemoveSpacesAppend(parts[0], Concat(parts[1..]));
    }
  }

  /** The parts before index `n` spell a prefix of all the parts. */
  lemma {:induction false} ConcatPrefix(parts: seq<string>, n: nat)
    requires n <= |parts|
    ensures Concat(parts[..n]) <= Concat(parts)
  {
    if n > 0 {
      assert parts[..n][1..] == parts[1..][..n - 1];
      ConcatPrefix(parts[1..], n - 1);
    }
  }

  /** Whitespace removal keeps prefixes. */
  lemma RemoveSpacesPrefix(front: string, whole: string)
    requires front <= whole
    ensures RemoveSpaces(front) <= RemoveSpaces(whole)
  {
    assert whole == front + whole[|front|..];
    RemoveSpacesAppend(front, whole[|front|..]);
  }

  /** The text of the first `n` parts is a prefix of the text of all of them. */
  lemma PrefixKeepsText(parts: seq<string>, n: nat)
    requires n <= |parts|
    ensures RemoveSpaces(Concat(parts[..n])) <= RemoveSpaces(Concat(parts))
  {
    ConcatPrefix(parts, n);
    RemoveSpacesPrefix(Concat(parts[..n]), Concat(parts));
  }

  /** No two consecutive line feeds. */
  predicate NoDoubleNewline(s: string) {
    forall i :: 0 <= i < |s| - 1 ==> !(s[i] == '\n' && s[i + 1] == '\n')
  }

  /** `s.replace(/\n{2,}/g, '\n')`: every run of two or more line feeds becomes one. */
  function CollapseNewlines(s: string): (r: string)
    ensures |r| <= |s|
    ensures NoDoubleNewline(r)
    ensures |s| > 0 ==> |r| > 0 && r[0] == s[0]
    decreases |s|
  {
    if |s| == 0 then ""
    else if |s| >= 2 && s[0] == '\n' && s[1] == '\n' then CollapseNewlines(s[1..])
    else
      var t := CollapseNewlines(s[1..]);
      assert |s| >= 2 ==> t[0] == s[1];
      [s[0]] + t
  }

  /** Collapsing changes nothing in a string that has no double line feed. */
  lemma {:induction false} CollapseIdentity(s: string)
    requires NoDoubleNewline(s)
    ensures CollapseNewlines(s) == s
    decreases |s|
  {
    if |s| > 0 {
      assert NoDoubleNewline(s[1..]) by {
        forall i | 0 <= i < |s[1..]| - 1 ensures !(s[1..][i] == '\n' && s[1..][i + 1] == '\n') {
          assert s[1..][i] == s[i + 1] && s[1..][i + 1] == s[i + 2];
        }
      }
      CollapseIdentity(s[1..]);
    }
  }

  /** Collapsing never touches a final character that is not a line feed. */
  lemma {:induction false} CollapseAppend(s: string, c: char)
    requires c != '\n'
    ensures CollapseNewlines(s + [c]) == CollapseNewlines(s) + [c]
    decreases |s|
  {
    if |s| > 0 {
      assert (s + [c])[1..] == s[1..] + [c];
      CollapseAppend(s[1..], c);
    }
  }

  /** Collapsing deletes line feeds only, so the rest of the text is unchanged. */
  lemma {:induction false} CollapseKeepsText(s: string)
    ensures RemoveSpaces(CollapseNewlines(s)) == RemoveSpaces(s)
    decreases |s|
  {
    if |s| > 0 {
      CollapseKeepsText(s[1..]);
      if !(|s| >= 2 && s[0] == '\n' && s[1] == '\n') {
        RemoveSpacesAppend([s[0]], CollapseNewlines(s[1..]));
      }
    }
  }

  /** `s` with every occurrence of `c` deleted. */
  function Without(s: string, c: char): (r: string)
    ensures |r| <= |s|
    ensures c !in r
  {
    if s == [] then [] else (if s[0] == c then [] else [s[0]]) + Without(s[1..], c)
  }

  /** Collapsing deletes line feeds and nothing else: every other character survives,
      in order. */
  lemma {:induction false} CollapseKeepsOthers(s: string)
    ensures Without(CollapseNewlines(s), '\n') == Without(s, '\n')
    decreases |s|
  {
    if |s| > 0 {
      CollapseKeepsOthers(s[1..]);
      if !(|s| >= 2 && s[0] == '\n' && s[1] == '\n') {
        var t := CollapseNewlines(s[1..]);
        assert ([s[0]] + t)[1..] == t;
      }
    }
  }

  /** `n` copies of `c`. */
  function Repeat(c: char, n: nat): (r: string)
    ensures |r| == n
  {
    if n == 0 then "" else [c] + Repeat(c, n - 1)
  }

  /** A run of line feeds that starts a string and is followed by something else becomes
      one line feed. */
  lemma {:induction false} CollapseLeadingRun(n: nat, b: string)
    requires n >= 1 && (b == [] || b[0] != '\n')
    ensures CollapseNewlines(Repeat('\n', n) + b) == "\n" + CollapseNewlines(b)
    decreases n
  {
    var s := Repeat('\n', n) + b;
    assert s[1..] == Repeat('\n', n - 1) + b;
    if n > 1 {
      assert s[1] == Repeat('\n', n - 1)[0];
      CollapseLeadingRun(n - 1, b);
    }
  }

  /** Each maximal run of line feeds, however long, collapses as a single line feed would:
      what comes before it and what comes after it are collapsed on their own. */
  lemma {:induction false} CollapseRun(a: string, n: nat, b: string)
    requires n >= 1 && (b == [] || b[0] != '\n')
    ensures CollapseNewlines(a + Repeat('\n', n) + b) == CollapseNewlines(a + "\n") + CollapseNewlines(b)
    decreases |a|
  {
    if a == [] {
      assert a + Repeat('\n', n) + b == Repeat('\n', n) + b;
      CollapseLeadingRun(n, b);
    } else {
      var s, t := a + Repeat('\n', n) + b, a + "\n";
      assert s[0] == a[0] && t[0] == a[0];
      assert s[1..] == a[1..] + Repeat('\n', n) + b;
      assert t[1..] == a[1..] + "\n";
      assert |a| == 1 ==> s[1] == Repeat('\n', n)[0];
      assert |a| >= 2 ==> s[1] == a[1] && t[1] == a[1];
      CollapseRun(a[1..], n, b);
    }
  }

  /** A line feed after text that does not end with one survives collapsing as it is. */
  lemma {:induction false} CollapseNewlineAfter(a: string)
    requires a == [] || a[|a| - 1] != '\n'
    ensures CollapseNewlines(a + "\n") == CollapseNewlines(a) + "\n"
    decreases |a|
  {
    if a != [] {
      var t := a + "\n";
      assert t[0] == a[0] && t[1..] == a[1..] + "\n";
      assert |a| >= 2 ==> t[1] == a[1];
      if |a| >= 2 {
        CollapseNewlineAfter(a[1..]);
      }
    }
  }

  /** So a maximal run of line feeds, of any length, becomes exactly one line feed, and the
      text around it is collapsed on its own. */
  lemma RunBecomesOne(a: string, n: nat, b: string)
    requires n >= 1
    requires a == [] || a[|a| - 1] != '\n'
    requires b == [] || b[0] != '\n'
    ensures CollapseNewlines(a + Repeat('\n', n) + b) == CollapseNewlines(a) + "\n" + CollapseNewlines(b)
  {
    CollapseRun(a, n, b);
    CollapseNewlineAfter(a);
  }
}
