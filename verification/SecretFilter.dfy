/**
 The clean/smudge pair that keeps configured secrets out of commits.

 Each pass rewrites the whole text once per map entry. The proof follows the text as a
 sequence of tokens: a character of the original, or the place of one replaced secret.
 */
module SecretFilter {

  datatype Entry = Entry(key: string, value: string)

  datatype Mode = Clean | Smudge

  function Placeholder(e: Entry): string { "<" + e.key + ">" }

  /** Does s continue with w at its start? (`w <= s` is the prefix order.) */
  predicate Occurs<T(==)>(w: seq<T>, s: seq<T>) {
    exists i :: 0 <= i <= |s| && w <= s[i..]
  }

  /** Python's `s.replace(w, r)`: leftmost occurrences, not overlapping. */
  function Replace<T(==)>(s: seq<T>, w: seq<T>, r: seq<T>): seq<T>
    requires w != []
    decreases |s|
  {
    if s == [] then []
    else if w <= s then r + Replace(s[|w|..], w, r)
    else [s[0]] + Replace(s[1..], w, r)
  }

  /* ----- the pass over the sorted entries ----- */

  function InsertByLength(e: Entry, es: seq<Entry>): (r: seq<Entry>)
    ensures multiset(r) == multiset(es) + multiset{e}
  {
    if es == [] then [e]
    else if |e.value| >= |es[0].value| then [e] + es
    else
      assert es == [es[0]] + es[1..];
      [es[0]] + InsertByLength(e, es[1..])
  }

  /** `sorted(entries, key=lambda kv: len(kv[1]), reverse=True)`, which keeps ties in order. */
  function ByLengthDescending(es: seq<Entry>): (r: seq<Entry>)
    ensures multiset(r) == multiset(es)
  {
    if es == [] then []
    else
      assert es == [es[0]] + es[1..];
      InsertByLength(es[0], ByLengthDescending(es[1..]))
  }

  predicate Descending(es: seq<Entry>) {
    forall i, j :: 0 <= i < j < |es| ==> |es[i].value| >= |es[j].value|
  }

  lemma {:induction false} LongestFirst(es: seq<Entry>)
    ensures Descending(ByLengthDescending(es))
  {
    if es != [] {
      LongestFirst(es[1..]);
      InsertKeepsOrder(es[0], ByLengthDescending(es[1..]));
    }
  }

  lemma {:induction false} InsertKeepsOrder(e: Entry, es: seq<Entry>)
    requires Descending(es)
    ensures Descending(InsertByLength(e, es))
  {
    if es != [] && |e.value| < |es[0].value| {
      InsertKeepsOrder(e, es[1..]);
      var tail := InsertByLength(e, es[1..]);
      forall j | 0 <= j < |tail| ensures |es[0].value| >= |tail[j].value| {
        assert tail[j] in multiset(tail);
        assert tail[j] == e || tail[j] in es[1..];
      }
    }
  }

  function Step(text: string, e: Entry, mode: Mode): string {
    if e.value == "" then text
    else if mode == Clean then Replace(text, e.value, Placeholder(e))
    else Replace(text, Placeholder(e), e.value)
  }

  function Rewrite(text: string, es: seq<Entry>, mode: Mode): string {
    if es == [] then text else Step(Rewrite(text, es[..|es| - 1], mode), es[|es| - 1], mode)
  }

  /** `_apply_replacements` */
  method ApplyReplacements(content: string, entries: seq<Entry>, mode: Mode) returns (out: string)
    ensures out == Rewrite(content, ByLengthDescending(entries), mode)
    ensures mode == Clean && MapOk(entries) ==>
              Cleaned(out, entries) && (Rewrite(out, ByLengthDescending(entries), Smudge) == content <==> NoPlaceholder(entries, content))
  {
    var sorted := ByLengthDescending(entries);
    out := content;
    for i := 0 to |sorted|
      invariant out == Rewrite(content, sorted[..i], mode)
    {
      assert sorted[..i + 1][..i] == sorted[..i];
      var e := sorted[i];
      if e.value != "" {
        var placeholder := Placeholder(e);
        out := if mode == Clean then Replace(out, e.value, placeholder) else Replace(out, placeholder, e.value);
      }
    }
    assert sorted[..|sorted|] == sorted;
    if MapOk(entries) { CleanThenSmudge(content, entries); }
  }

  /* ----- what the map and the text must satisfy ----- */

  predicate NoBrackets(s: string) {
    forall i :: 0 <= i < |s| ==> s[i] != '<' && s[i] != '>'
  }

  /** The text holds no placeholder of an entry with a value. */
  ghost predicate NoPlaceholder(es: seq<Entry>, text: string) {
    forall i :: 0 <= i < |es| && es[i].value != "" ==> !Occurs(Placeholder(es[i]), text)
  }

  predicate DistinctKeys(es: seq<Entry>) {
    forall i, j :: 0 <= i < |es| && 0 <= j < |es| && i != j ==> es[i].key != es[j].key
  }

  /** Keys and values without brackets, keys without a configured value inside, and keys distinct. */
  ghost predicate MapOk(es: seq<Entry>) {
    && (forall i :: 0 <= i < |es| ==> NoBrackets(es[i].key) && NoBrackets(es[i].value))
    && (forall i, j :: 0 <= i < |es| && 0 <= j < |es| && es[j].value != "" ==> !Occurs(es[j].value, es[i].key))
    && DistinctKeys(es)
  }

  /** No configured value is left. */
  ghost predicate Cleaned(text: string, es: seq<Entry>) {
    forall i :: 0 <= i < |es| && es[i].value != "" ==> !Occurs(es[i].value, text)
  }

  /* ----- tokens ----- */

  datatype Token = Char(c: char) | Hole(i: nat)

  predicate HolesIn(ts: seq<Token>, es: seq<Entry>) {
    forall k :: 0 <= k < |ts| && ts[k].Hole? ==> ts[k].i < |es| && es[ts[k].i].value != ""
  }

  /** One token, holes of index below `restored` showing their value, the others their placeholder. */
  function ShowOne(t: Token, es: seq<Entry>, restored: nat): string {
    if t.Char? then [t.c]
    else if t.i >= |es| then ""
    else if t.i < restored then es[t.i].value
    else Placeholder(es[t.i])
  }

  function Show(ts: seq<Token>, es: seq<Entry>, restored: nat): string {
    if ts == [] then "" else ShowOne(ts[0], es, restored) + Show(ts[1..], es, restored)
  }

  function Lift(s: string): (ts: seq<Token>)
    ensures |ts| == |s| && forall i :: 0 <= i < |s| ==> ts[i] == Char(s[i])
  {
    seq(|s|, i requires 0 <= i < |s| => Char(s[i]))
  }

  lemma {:induction false} ShowConcat(a: seq<Token>, b: seq<Token>, es: seq<Entry>, n: nat)
    ensures Show(a + b, es, n) == Show(a, es, n) + Show(b, es, n)
  {
    if a == [] {
      assert a + b == b;
    } else {
      assert (a + b)[1..] == a[1..] + b;
      ShowConcat(a[1..], b, es, n);
    }
  }

  lemma {:induction false} ShowLift(s: string, es: seq<Entry>, n: nat)
    ensures Show(Lift(s), es, n) == s
  {
    if s != "" {
      assert Lift(s)[1..] == Lift(s[1..]);
      ShowLift(s[1..], es, n);
    }
  }

  lemma ShowPrefix(w: string, ts: seq<Token>, es: seq<Entry>, n: nat)
    requires Lift(w) <= ts
    ensures Show(ts, es, n) == w + Show(ts[|w|..], es, n)
  {
    assert ts == Lift(w) + ts[|w|..];
    ShowConcat(Lift(w), ts[|w|..], es, n);
    ShowLift(w, es, n);
  }

  /* ----- replacing inside a shown text ----- */

  /** A stretch in which no occurrence of w starts is copied. */
  lemma {:induction false} CopyStretch(u: string, rest: string, w: string, r: string)
    requires w != ""
    requires forall k :: 0 <= k < |u| ==> !(w <= u[k..] + rest)
    ensures Replace(u + rest, w, r) == u + Replace(rest, w, r)
  {
    if u == "" {
      assert u + rest == rest;
    } else {
      assert u[0..] + rest == u + rest;
      assert (u + rest)[1..] == u[1..] + rest;
      forall k | 0 <= k < |u[1..]| ensures !(w <= u[1..][k..] + rest) {
        assert u[1..][k..] == u[k + 1..];
      }
      CopyStretch(u[1..], rest, w, r);
    }
  }

  lemma PrefixSplit(w: string, u: string, rest: string)
    ensures |w| > |u| ==> (w <= u + rest <==> w[..|u|] == u && w[|u|..] <= rest)
    ensures |w| <= |u| ==> (w <= u + rest <==> w <= u)
  {
    if |w| > |u| {
      assert w == w[..|u|] + w[|u|..];
      if w <= u + rest {
        assert w[..|u|] == (u + rest)[..|u|] == u;
        assert w[|u|..] == (u + rest)[|u|..|w|] == rest[..|w| - |u|];
      }
    } else {
      assert |w| <= |u + rest| ==> (u + rest)[..|w|] == u[..|w|];
    }
  }

  /* ----- clean ----- */

  /** A value seen at the start of a text with no restored hole is a run of character tokens. */
  lemma {:induction false} ValueInChars(w: string, ts: seq<Token>, es: seq<Entry>)
    requires HolesIn(ts, es) && NoBrackets(w)
    ensures w <= Show(ts, es, 0) <==> Lift(w) <= ts
  {
    if Lift(w) <= ts { ShowPrefix(w, ts, es, 0); }
    if w <= Show(ts, es, 0) && w != "" && ts != [] {
      var u, rest := ShowOne(ts[0], es, 0), Show(ts[1..], es, 0);
      assert (u + rest)[0] == u[0] == w[0];
      assert ts[0] == Char(w[0]);
      assert w[1..] <= rest by { assert rest == (u + rest)[1..]; }
      ValueInChars(w[1..], ts[1..], es);
      assert Lift(w) == [ts[0]] + Lift(w[1..]);
    }
  }

  /** No value starts inside a placeholder. */
  lemma NoValueInPlaceholder(w: string, e: Entry, rest: string)
    requires w != "" && NoBrackets(w) && !Occurs(w, e.key)
    ensures forall k :: 0 <= k < |Placeholder(e)| ==> !(w <= Placeholder(e)[k..] + rest)
  {
    var p := Placeholder(e);
    forall k | 0 <= k < |p| ensures !(w <= p[k..] + rest) {
      var s, m := p[k..] + rest, |p| - 1 - k;
      assert s[m] == '>' && s[0] == p[k];
      if k > 0 && |w| <= m {
        assert s[..m] == e.key[k - 1..];
        assert s[..|w|] == e.key[k - 1..][..|w|];
        assert !(w <= e.key[k - 1..]);
      } else if k > 0 {
        assert w[m] != s[m];
      } else {
        assert w[0] != s[0];
      }
    }
  }

  /** Cleaning one entry, seen on tokens: the shown text is replaced alike. */
  lemma {:induction false} CleanStep(ts: seq<Token>, es: seq<Entry>, i: nat)
    requires MapOk(es) && HolesIn(ts, es) && i < |es| && es[i].value != ""
    ensures Replace(Show(ts, es, 0), es[i].value, Placeholder(es[i]))
         == Show(Replace(ts, Lift(es[i].value), [Hole(i)]), es, 0)
    decreases |ts|
  {
    var v, ph := es[i].value, Placeholder(es[i]);
    if ts != [] {
      ValueInChars(v, ts, es);
      if Lift(v) <= ts {
        var tail := ts[|v|..];
        CleanStep(tail, es, i);
        ShowPrefix(v, ts, es, 0);
        assert (v + Show(tail, es, 0))[|v|..] == Show(tail, es, 0);
        ShowCons(Hole(i), Replace(tail, Lift(v), [Hole(i)]), es, 0);
      } else {
        var rest := Show(ts[1..], es, 0);
        CleanStep(ts[1..], es, i);
        if ts[0].Char? {
          assert ([ts[0].c] + rest)[1..] == rest;
        } else {
          NoValueInPlaceholder(v, es[ts[0].i], rest);
          CopyStretch(Placeholder(es[ts[0].i]), rest, v, ph);
        }
        ShowCons(ts[0], Replace(ts[1..], Lift(v), [Hole(i)]), es, 0);
      }
    }
  }

  lemma ShowCons(t: Token, ts: seq<Token>, es: seq<Entry>, n: nat)
    ensures Show([t] + ts, es, n) == ShowOne(t, es, n) + Show(ts, es, n)
  {
    assert ([t] + ts)[1..] == ts;
  }

  /** Replacing a value by its hole keeps the original text and keeps holes in range. */
  lemma {:induction false} CleanKeepsOriginal(ts: seq<Token>, es: seq<Entry>, i: nat)
    requires HolesIn(ts, es) && i < |es| && es[i].value != ""
    ensures Show(Replace(ts, Lift(es[i].value), [Hole(i)]), es, |es|) == Show(ts, es, |es|)
    ensures HolesIn(Replace(ts, Lift(es[i].value), [Hole(i)]), es)
    decreases |ts|
  {
    var v := es[i].value;
    if ts != [] {
      if Lift(v) <= ts {
        CleanKeepsOriginal(ts[|v|..], es, i);
        ShowPrefix(v, ts, es, |es|);
        ShowCons(Hole(i), Replace(ts[|v|..], Lift(v), [Hole(i)]), es, |es|);
      } else {
        CleanKeepsOriginal(ts[1..], es, i);
        ShowCons(ts[0], Replace(ts[1..], Lift(v), [Hole(i)]), es, |es|);
      }
    }
  }

  /** After replacing w, no occurrence of w is left, when the replacement shares no token with w. */
  lemma {:induction false} ReplaceRemoves(ts: seq<Token>, w: string, h: nat)
    requires w != ""
    ensures !Occurs(Lift(w), Replace(ts, Lift(w), [Hole(h)]))
    decreases |ts|
  {
    var out := Replace(ts, Lift(w), [Hole(h)]);
    if ts != [] {
      if Lift(w) <= ts {
        ReplaceRemoves(ts[|w|..], w, h);
        assert Lift(w)[0] == Char(w[0]);
        PrependOccurs(Hole(h), Replace(ts[|w|..], Lift(w), [Hole(h)]), w);
      } else {
        ReplaceRemoves(ts[1..], w, h);
        var tail := Replace(ts[1..], Lift(w), [Hole(h)]);
        RunComesFromInput(ts, w, w, h);
        PrependOccurs(ts[0], tail, w);
      }
    }
  }

  lemma PrependOccurs(t: Token, ts: seq<Token>, w: string)
    requires w != "" && !Occurs(Lift(w), ts) && !(Lift(w) <= [t] + ts)
    ensures !Occurs(Lift(w), [t] + ts)
  {
    forall k | 0 <= k <= |[t] + ts| ensures !(Lift(w) <= ([t] + ts)[k..]) {
      if k == 0 { assert ([t] + ts)[0..] == [t] + ts; } else { assert ([t] + ts)[k..] == ts[k - 1..]; }
    }
  }

  /** A run of characters at the start of the result was at the start of the input. */
  lemma {:induction false} RunComesFromInput(ts: seq<Token>, w: string, x: string, h: nat)
    requires w != ""
    ensures Lift(x) <= Replace(ts, Lift(w), [Hole(h)]) ==> Lift(x) <= ts
    decreases |ts|
  {
    if ts != [] && x != "" {
      var out := Replace(ts, Lift(w), [Hole(h)]);
      assert Lift(x)[0] == Char(x[0]);
      if !(Lift(w) <= ts) {
        var tail := Replace(ts[1..], Lift(w), [Hole(h)]);
        RunComesFromInput(ts[1..], w, x[1..], h);
        ConsTokens(x, ts[0], tail);
        ConsTokens(x, ts[0], ts[1..]);
      }
    }
  }

  lemma ConsTokens(x: string, t: Token, ts: seq<Token>)
    requires x != ""
    ensures Lift(x) <= [t] + ts <==> t == Char(x[0]) && Lift(x[1..]) <= ts
  {
    var l := Lift(x);
    assert l == [Char(x[0])] + Lift(x[1..]);
    if l <= [t] + ts {
      assert l == ([t] + ts)[..|l|];
      assert Lift(x[1..]) == l[1..] == ts[..|l| - 1];
    }
    if Lift(x[1..]) <= ts && t == Char(x[0]) {
      assert ts == Lift(x[1..]) + ts[|x| - 1..];
      assert [t] + ts == l + ts[|x| - 1..];
    }
  }

  /** Replacing one word brings no other word back. */
  lemma {:induction false} ReplaceKeepsAbsent(ts: seq<Token>, w: string, h: nat, x: string)
    requires w != "" && x != "" && !Occurs(Lift(x), ts)
    ensures !Occurs(Lift(x), Replace(ts, Lift(w), [Hole(h)]))
    decreases |ts|
  {
    if ts != [] {
      var k := if Lift(w) <= ts then |w| else 1;
      forall m | 0 <= m <= |ts[k..]| ensures !(Lift(x) <= ts[k..][m..]) {
        assert ts[k..][m..] == ts[k + m..];
      }
      ReplaceKeepsAbsent(ts[k..], w, h, x);
      var out := Replace(ts, Lift(w), [Hole(h)]);
      assert ts[0..] == ts;
      RunComesFromInput(ts, w, x, h);
      PrependOccurs(if Lift(w) <= ts then Hole(h) else ts[0], Replace(ts[k..], Lift(w), [Hole(h)]), x);
    }
  }

  /** The tokens after cleaning with the first n entries. */
  function CleanTokens(text: string, es: seq<Entry>, n: nat): seq<Token>
    requires n <= |es|
  {
    if n == 0 then Lift(text)
    else
      var ts := CleanTokens(text, es, n - 1);
      if es[n - 1].value == "" then ts else Replace(ts, Lift(es[n - 1].value), [Hole(n - 1)])
  }

  lemma {:induction false} CleanInvariant(text: string, es: seq<Entry>, n: nat)
    requires MapOk(es) && n <= |es|
    ensures HolesIn(CleanTokens(text, es, n), es)
    ensures Rewrite(text, es[..n], Clean) == Show(CleanTokens(text, es, n), es, 0)
    ensures Show(CleanTokens(text, es, n), es, |es|) == text
  {
    if n == 0 {
      ShowLift(text, es, 0);
      ShowLift(text, es, |es|);
    } else {
      CleanInvariant(text, es, n - 1);
      assert es[..n][..n - 1] == es[..n - 1];
      if es[n - 1].value != "" {
        CleanStep(CleanTokens(text, es, n - 1), es, n - 1);
        CleanKeepsOriginal(CleanTokens(text, es, n - 1), es, n - 1);
      }
    }
  }

  /** Once an entry has been cleaned its value is gone from the tokens for good. */
  lemma {:induction false} CleanedValueGone(text: string, es: seq<Entry>, n: nat, j: nat)
    requires j < n <= |es| && es[j].value != ""
    ensures !Occurs(Lift(es[j].value), CleanTokens(text, es, n))
  {
    var ts, v := CleanTokens(text, es, n - 1), es[n - 1].value;
    if j == n - 1 {
      ReplaceRemoves(ts, v, n - 1);
    } else {
      CleanedValueGone(text, es, n - 1, j);
      if v != "" { ReplaceKeepsAbsent(ts, v, n - 1, es[j].value); }
    }
  }

  /** A value absent from the tokens is absent from the cleaned text. */
  lemma {:induction false} AbsentFromShown(ts: seq<Token>, es: seq<Entry>, j: nat)
    requires MapOk(es) && HolesIn(ts, es) && j < |es| && es[j].value != ""
    requires !Occurs(Lift(es[j].value), ts)
    ensures !Occurs(es[j].value, Show(ts, es, 0))
  {
    var v := es[j].value;
    if ts != [] {
      forall m | 0 <= m <= |ts[1..]| ensures !(Lift(v) <= ts[1..][m..]) {
        assert ts[1..][m..] == ts[m + 1..];
      }
      AbsentFromShown(ts[1..], es, j);
      var u, rest := ShowOne(ts[0], es, 0), Show(ts[1..], es, 0);
      assert ts[0..] == ts;
      ValueInChars(v, ts, es);
      if ts[0].Hole? { NoValueInPlaceholder(v, es[ts[0].i], rest); }
      forall k | 0 <= k <= |u + rest| ensures !(v <= (u + rest)[k..]) {
        if k < |u| { assert (u + rest)[k..] == u[k..] + rest; }
        else { assert (u + rest)[k..] == rest[k - |u|..]; }
      }
    }
  }

  /* ----- smudge ----- */

  lemma PlaceholderAtHole(j: nat, rest: string, es: seq<Entry>, i: nat)
    requires MapOk(es) && j < |es| && i < |es| && es[j].value != ""
    ensures Placeholder(es[i]) <= ShowOne(Hole(j), es, i) + rest <==> j == i
  {
    var u := ShowOne(Hole(j), es, i);
    if j < i {
      assert (u + rest)[0] == u[0] != '<';
    } else {
      SamePlaceholder(es[i], es[j], rest);
    }
  }

  lemma ConsPrefix(c: char, w: string, d: char, s: string)
    ensures [c] + w <= [d] + s <==> c == d && w <= s
  {
    PrefixSplit([c] + w, [d], s);
    assert ([c] + w)[1..] == w && ([c] + w)[..1] == [c];
    assert w == "" ==> [c] + w == [c];
    assert [c][0] == c && [d][0] == d;
    assert [c] == [d] <==> c == d;
    assert [c] <= [d] ==> [c][..1] == [d][..1];
  }

  /** The text up to the first `>`. */
  function UpToClose(s: string): string {
    if s == "" || s[0] == '>' then "" else [s[0]] + UpToClose(s[1..])
  }

  lemma {:induction false} UpToCloseOf(k: string, rest: string)
    requires NoBrackets(k)
    ensures UpToClose(k + ">" + rest) == k
  {
    if k == "" {
      assert k + ">" + rest == ">" + rest;
    } else {
      assert (k + ">" + rest)[1..] == k[1..] + ">" + rest;
      UpToCloseOf(k[1..], rest);
    }
  }

  /** Two keys without brackets whose placeholders start one text are equal. */
  lemma SamePlaceholder(e: Entry, f: Entry, rest: string)
    requires NoBrackets(e.key) && NoBrackets(f.key)
    ensures Placeholder(e) <= Placeholder(f) + rest <==> e.key == f.key
  {
    var p, q := Placeholder(e), Placeholder(f) + rest;
    if p <= q {
      var more := q[|p|..];
      assert q == p + more;
      assert q[1..] == e.key + ">" + more && q[1..] == f.key + ">" + rest;
      UpToCloseOf(e.key, more);
      UpToCloseOf(f.key, rest);
    }
  }

  /** Part of a key and its bracket, starting a shown text, are character tokens: a key holds no value. */
  lemma {:induction false} KeyInChars(key: string, m: nat, ts: seq<Token>, es: seq<Entry>, n: nat)
    requires HolesIn(ts, es) && m <= |key| && NoBrackets(key)
    requires forall j :: 0 <= j < |es| && es[j].value != "" ==> NoBrackets(es[j].value) && !Occurs(es[j].value, key)
    ensures key[m..] + ">" <= Show(ts, es, n) <==> Lift(key[m..] + ">") <= ts
    decreases |key| - m
  {
    hide Occurs, NoBrackets;
    var w := key[m..] + ">";
    if ts != [] {
      var rest := Show(ts[1..], es, n);
      assert Lift(w)[0] == Char(w[0]);
      if ts[0].Hole? {
        ValueNotInKey(key, m, es, ts[0].i, n, rest);
      } else {
        ConsTokens(w, ts[0], ts[1..]);
        ConsPrefix(w[0], w[1..], ts[0].c, rest);
        assert ts == [ts[0]] + ts[1..] && w == [w[0]] + w[1..];
        if m < |key| {
          assert w[1..] == key[m + 1..] + ">";
          KeyInChars(key, m + 1, ts[1..], es, n);
        } else {
          assert Lift(w[1..]) == [];
        }
      }
    }
  }

  lemma StartOfLonger(u: string, w: string, rest: string)
    requires |u| <= |w|
    ensures w <= u + rest ==> u <= w
  {
    if w <= u + rest { assert w[..|u|] == (u + rest)[..|u|] == u; }
  }

  /** No hole, shown either way, starts with part of a key that holds no value. */
  lemma ValueNotInKey(key: string, m: nat, es: seq<Entry>, j: nat, n: nat, rest: string)
    requires j < |es| && es[j].value != "" && m <= |key| && NoBrackets(key)
    requires NoBrackets(es[j].value) && !Occurs(es[j].value, key)
    ensures !(key[m..] + ">" <= ShowOne(Hole(j), es, n) + rest)
  {
    var w, u := key[m..] + ">", ShowOne(Hole(j), es, n);
    var s := u + rest;
    assert s[0] == u[0];
    assert w[|key| - m] == '>';
    assert forall i :: 0 <= i < |u| ==> s[i] == u[i];
    if j < n && |u| <= |key| - m {
      assert !(u <= key[m..]);
      assert u <= w <==> u <= key[m..] by { PrefixSplit(u, key[m..], ">"); }
      StartOfLonger(u, w, rest);
    }
  }

  /** The placeholder of entry i starts a text exactly at its own hole, or where it stands in characters. */
  lemma PlaceholderStart(ts: seq<Token>, es: seq<Entry>, i: nat, n: nat)
    requires MapOk(es) && HolesIn(ts, es) && i < |es| && ts != [] && (i == n || n == |es|)
    ensures Placeholder(es[i]) <= Show(ts, es, n) <==> Lift(Placeholder(es[i])) <= ts || (ts[0] == Hole(i) && i == n)
  {
    var e := es[i];
    var w := e.key + ">";
    assert Placeholder(e) == "<" + w && Placeholder(e)[1..] == w;
    if ts[0].Hole? {
      HoleStart(ts[0].i, Show(ts[1..], es, n), es, i, n);
      assert Lift(Placeholder(e))[0] == Char('<');
    } else {
      assert e.key[0..] == e.key;
      KeyInChars(e.key, 0, ts[1..], es, n);
      ConsPrefix('<', w, ts[0].c, Show(ts[1..], es, n));
      ConsTokens(Placeholder(e), ts[0], ts[1..]);
      assert ts == [ts[0]] + ts[1..];
    }
  }

  lemma HoleStart(j: nat, rest: string, es: seq<Entry>, i: nat, n: nat)
    requires MapOk(es) && j < |es| && i < |es| && es[j].value != "" && (i == n || n == |es|)
    ensures Placeholder(es[i]) <= ShowOne(Hole(j), es, n) + rest <==> j == i && i == n
  {
    if i == n {
      PlaceholderAtHole(j, rest, es, i);
    } else {
      var u := ShowOne(Hole(j), es, n);
      assert (u + rest)[0] == u[0] != '<';
    }
  }

  /** Smudging entry i on tokens: its placeholders that stand in characters become its value. */
  function SmudgeOne(ts: seq<Token>, es: seq<Entry>, i: nat): seq<Token>
    requires i < |es|
  {
    if es[i].value == "" then ts else Replace(ts, Lift(Placeholder(es[i])), Lift(es[i].value))
  }

  lemma {:induction false} SmudgeOneHoles(ts: seq<Token>, es: seq<Entry>, i: nat)
    requires HolesIn(ts, es) && i < |es|
    ensures HolesIn(SmudgeOne(ts, es, i), es)
    decreases |ts|
  {
    var ph := Lift(Placeholder(es[i]));
    if ts != [] && es[i].value != "" { SmudgeOneHoles(ts[if ph <= ts then |ph| else 1..], es, i); }
  }

  /** One smudge pass on the text is that step on the tokens, with the holes of entry i restored. */
  lemma {:induction false} SmudgeStep(ts: seq<Token>, es: seq<Entry>, i: nat)
    requires MapOk(es) && HolesIn(ts, es) && i < |es| && es[i].value != ""
    ensures Replace(Show(ts, es, i), Placeholder(es[i]), es[i].value) == Show(SmudgeOne(ts, es, i), es, i + 1)
    decreases |ts|
  {
    if ts != [] {
      var v, ph := es[i].value, Placeholder(es[i]);
      PlaceholderStart(ts, es, i, i);
      if Lift(ph) <= ts {
        var tail := ts[|ph|..];
        SmudgeStep(tail, es, i);
        ShowPrefix(ph, ts, es, i);
        assert (ph + Show(tail, es, i))[|ph|..] == Show(tail, es, i);
        ShowConcat(Lift(v), SmudgeOne(tail, es, i), es, i + 1);
        ShowLift(v, es, i + 1);
      } else {
        var u, rest := ShowOne(ts[0], es, i), Show(ts[1..], es, i);
        SmudgeStep(ts[1..], es, i);
        ShowCons(ts[0], SmudgeOne(ts[1..], es, i), es, i + 1);
        if ts[0] == Hole(i) {
          assert (ph + rest)[|ph|..] == rest;
        } else {
          forall k | 0 <= k < |u| ensures !(ph <= u[k..] + rest) {
            if k == 0 { assert u[0..] == u; } else { assert (u[k..] + rest)[0] == u[k] != '<'; }
          }
          CopyStretch(u, rest, ph, v);
        }
      }
    }
  }

  /* ----- counting opening brackets ----- */

  function Opens(s: string): nat {
    if s == "" then 0 else (if s[0] == '<' then 1 else 0) + Opens(s[1..])
  }

  lemma {:induction false} OpensConcat(a: string, b: string)
    ensures Opens(a + b) == Opens(a) + Opens(b)
  {
    if a == "" {
      assert a + b == b;
    } else {
      assert (a + b)[1..] == a[1..] + b;
      OpensConcat(a[1..], b);
    }
  }

  lemma {:induction false} NoOpens(s: string)
    requires NoBrackets(s)
    ensures Opens(s) == 0
  {
    if s != "" { NoOpens(s[1..]); }
  }

  lemma PlaceholderOpens(e: Entry)
    requires NoBrackets(e.key)
    ensures Opens(Placeholder(e)) == 1
  {
    assert Placeholder(e) == "<" + (e.key + ">");
    OpensConcat("<", e.key + ">");
    OpensConcat(e.key, ">");
    NoOpens(e.key);
  }

  /** Smudging characters costs an opening bracket each time, so it shows in the restored text. */
  lemma {:induction false} SmudgeOneOpens(ts: seq<Token>, es: seq<Entry>, i: nat)
    requires MapOk(es) && HolesIn(ts, es) && i < |es| && es[i].value != ""
    ensures var out := SmudgeOne(ts, es, i);
            && Opens(Show(out, es, |es|)) <= Opens(Show(ts, es, |es|))
            && (Occurs(Lift(Placeholder(es[i])), ts) ==> Opens(Show(out, es, |es|)) < Opens(Show(ts, es, |es|)))
            && (!Occurs(Lift(Placeholder(es[i])), ts) ==> out == ts)
    decreases |ts|
  {
    var v, ph := es[i].value, Placeholder(es[i]);
    if ts != [] {
      assert ts[0..] == ts;
      if Lift(ph) <= ts {
        var tail := ts[|ph|..];
        SmudgeOneOpens(tail, es, i);
        ShowPrefix(ph, ts, es, |es|);
        OpensConcat(ph, Show(tail, es, |es|));
        PlaceholderOpens(es[i]);
        ShowConcat(Lift(v), SmudgeOne(tail, es, i), es, |es|);
        ShowLift(v, es, |es|);
        OpensConcat(v, Show(SmudgeOne(tail, es, i), es, |es|));
        NoOpens(v);
      } else {
        SmudgeOneOpens(ts[1..], es, i);
        var out := SmudgeOne(ts[1..], es, i);
        ShowCons(ts[0], out, es, |es|);
        OpensConcat(ShowOne(ts[0], es, |es|), Show(out, es, |es|));
        OpensConcat(ShowOne(ts[0], es, |es|), Show(ts[1..], es, |es|));
        OccursInTail(Lift(ph), ts);
        assert [ts[0]] + ts[1..] == ts;
      }
    }
  }

  lemma OccursInTail<T>(w: seq<T>, ts: seq<T>)
    requires ts != [] && !(w <= ts)
    ensures Occurs(w, ts) <==> Occurs(w, ts[1..])
  {
    if k :| 0 <= k <= |ts| && w <= ts[k..] {
      assert ts[0..] == ts;
      assert k > 0 && ts[k..] == ts[1..][k - 1..];
    }
    if k :| 0 <= k <= |ts[1..]| && w <= ts[1..][k..] {
      assert ts[1..][k..] == ts[k + 1..];
    }
  }

  /** The tokens after smudging with the first n entries. */
  function SmudgeTokens(ts: seq<Token>, es: seq<Entry>, n: nat): seq<Token>
    requires n <= |es|
  {
    if n == 0 then ts else SmudgeOne(SmudgeTokens(ts, es, n - 1), es, n - 1)
  }

  lemma SmudgePass(ts: seq<Token>, es: seq<Entry>, i: nat)
    requires MapOk(es) && HolesIn(ts, es) && i < |es|
    ensures HolesIn(SmudgeOne(ts, es, i), es)
    ensures Step(Show(ts, es, i), es[i], Smudge) == Show(SmudgeOne(ts, es, i), es, i + 1)
  {
    hide MapOk, HolesIn, Show;
    SmudgeOneHoles(ts, es, i);
    if es[i].value != "" { SmudgeStep(ts, es, i); } else { ShowWithoutHole(ts, es, i); }
  }

  lemma {:induction false} SmudgeInvariant(ts: seq<Token>, es: seq<Entry>, n: nat)
    requires MapOk(es) && HolesIn(ts, es) && n <= |es|
    ensures HolesIn(SmudgeTokens(ts, es, n), es)
    ensures Rewrite(Show(ts, es, 0), es[..n], Smudge) == Show(SmudgeTokens(ts, es, n), es, n)
  {
    hide MapOk, HolesIn, Show, SmudgeOne, Step;
    if n > 0 {
      SmudgeInvariant(ts, es, n - 1);
      assert es[..n][..n - 1] == es[..n - 1] && es[..n][n - 1] == es[n - 1];
      SmudgePass(SmudgeTokens(ts, es, n - 1), es, n - 1);
    }
  }

  /** A placeholder of entry i, which has a value, stands in the tokens. */
  predicate Placed(ts: seq<Token>, es: seq<Entry>, i: nat)
    requires i < |es|
  {
    es[i].value != "" && Occurs(Lift(Placeholder(es[i])), ts)
  }

  lemma SmudgeOneShows(ts: seq<Token>, es: seq<Entry>, i: nat)
    requires MapOk(es) && HolesIn(ts, es) && i < |es|
    ensures var out := SmudgeOne(ts, es, i);
            && Opens(Show(out, es, |es|)) <= Opens(Show(ts, es, |es|))
            && (Placed(ts, es, i) ==> Opens(Show(out, es, |es|)) < Opens(Show(ts, es, |es|)))
            && (!Placed(ts, es, i) ==> out == ts)
  {
    hide MapOk, HolesIn, Show, Occurs, Opens, Replace;
    if es[i].value != "" { SmudgeOneOpens(ts, es, i); }
  }

  /** No placeholder of these first entries stands in the tokens. */
  ghost predicate NonePlaced(ts: seq<Token>, es: seq<Entry>, n: nat)
    requires n <= |es|
  {
    forall i :: 0 <= i < n ==> !Placed(ts, es, i)
  }

  /** Smudging keeps the tokens exactly while no placeholder stands in them; otherwise a bracket is lost for good. */
  lemma {:induction false} SmudgeTokensOpens(ts: seq<Token>, es: seq<Entry>, n: nat)
    requires MapOk(es) && HolesIn(ts, es) && n <= |es|
    ensures var out := SmudgeTokens(ts, es, n);
            && (NonePlaced(ts, es, n) ==> out == ts)
            && (!NonePlaced(ts, es, n) ==> Opens(Show(out, es, |es|)) < Opens(Show(ts, es, |es|)))
  {
    hide MapOk, HolesIn, Show, SmudgeOne, Placed, Opens;
    if n > 0 {
      SmudgeTokensOpens(ts, es, n - 1);
      SmudgeInvariant(ts, es, n - 1);
      SmudgeOneShows(SmudgeTokens(ts, es, n - 1), es, n - 1);
      assert NonePlaced(ts, es, n) <==> NonePlaced(ts, es, n - 1) && !Placed(ts, es, n - 1);
    }
  }

  /** A placeholder in the restored text stands in characters, and the other way round. */
  lemma {:induction false} PlacedInText(ts: seq<Token>, es: seq<Entry>, i: nat)
    requires MapOk(es) && HolesIn(ts, es) && i < |es|
    ensures Occurs(Placeholder(es[i]), Show(ts, es, |es|)) <==> Occurs(Lift(Placeholder(es[i])), ts)
  {
    var ph := Placeholder(es[i]);
    if ts == [] {
      assert forall k :: 0 <= k <= |Show(ts, es, |es|)| ==> Show(ts, es, |es|)[k..] == "";
      assert forall k :: 0 <= k <= |ts| ==> ts[k..] == [];
    } else {
      var u, rest := ShowOne(ts[0], es, |es|), Show(ts[1..], es, |es|);
      PlaceholderStart(ts, es, i, |es|);
      PlacedInText(ts[1..], es, i);
      forall k | 0 < k < |u| ensures !(ph <= (u + rest)[k..]) {
        assert (u + rest)[k..][0] == u[k] != '<';
      }
      OccursPast(ph, u, rest);
      assert ts[0..] == ts;
      if !(Lift(ph) <= ts) { OccursInTail(Lift(ph), ts); }
    }
  }

  lemma OccursPast(w: string, u: string, rest: string)
    requires u != "" && forall k :: 0 < k < |u| ==> !(w <= (u + rest)[k..])
    ensures Occurs(w, u + rest) <==> w <= u + rest || Occurs(w, rest)
  {
    var s := u + rest;
    assert s[0..] == s;
    if k :| 0 <= k <= |s| && w <= s[k..] {
      if k >= |u| { assert s[k..] == rest[k - |u|..]; }
    }
    if k :| 0 <= k <= |rest| && w <= rest[k..] {
      assert s[|u| + k..] == rest[k..];
    }
  }

  lemma {:induction false} ShowWithoutHole(ts: seq<Token>, es: seq<Entry>, i: nat)
    requires HolesIn(ts, es) && i < |es| && es[i].value == ""
    ensures Show(ts, es, i) == Show(ts, es, i + 1)
  {
    if ts != [] { ShowWithoutHole(ts[1..], es, i); }
  }

  lemma CleanLeavesNoValue(text: string, es: seq<Entry>)
    requires MapOk(es)
    ensures Cleaned(Rewrite(text, es, Clean), es)
  {
    hide MapOk, Occurs, HolesIn, Show, CleanTokens, Rewrite;
    CleanInvariant(text, es, |es|);
    assert es[..|es|] == es;
    forall j | 0 <= j < |es| && es[j].value != "" ensures !Occurs(es[j].value, Rewrite(text, es, Clean)) {
      CleanedValueGone(text, es, |es|, j);
      AbsentFromShown(CleanTokens(text, es, |es|), es, j);
    }
  }

  /** The tokens of a text hold no placeholder exactly when the text holds none. */
  lemma NonePlacedMeans(ts: seq<Token>, es: seq<Entry>)
    requires MapOk(es) && HolesIn(ts, es)
    ensures NonePlaced(ts, es, |es|) <==> NoPlaceholder(es, Show(ts, es, |es|))
  {
    hide MapOk, Occurs, HolesIn, Show;
    forall i | 0 <= i < |es| ensures Occurs(Placeholder(es[i]), Show(ts, es, |es|)) <==> Occurs(Lift(Placeholder(es[i])), ts) {
      PlacedInText(ts, es, i);
    }
    if NonePlaced(ts, es, |es|) {
      forall i | 0 <= i < |es| && es[i].value != "" ensures !Occurs(Placeholder(es[i]), Show(ts, es, |es|)) {
        assert !Placed(ts, es, i);
      }
    }
  }

  /** In any order of the entries: cleaning removes every value, and smudging gives the text back exactly when it held no placeholder. */
  lemma CleanThenSmudgeInOrder(text: string, es: seq<Entry>)
    requires MapOk(es)
    ensures Cleaned(Rewrite(text, es, Clean), es)
    ensures Rewrite(Rewrite(text, es, Clean), es, Smudge) == text <==> NoPlaceholder(es, text)
  {
    hide MapOk, Occurs, HolesIn, Show, CleanTokens, Rewrite, SmudgeTokens, NoPlaceholder, NonePlaced, Opens, Cleaned;
    CleanLeavesNoValue(text, es);
    CleanInvariant(text, es, |es|);
    assert es[..|es|] == es;
    var ts := CleanTokens(text, es, |es|);
    SmudgeInvariant(ts, es, |es|);
    SmudgeTokensOpens(ts, es, |es|);
    NonePlacedMeans(ts, es);
  }

  lemma {:induction false} SortedDistinct(es: seq<Entry>)
    requires DistinctKeys(es)
    ensures DistinctKeys(ByLengthDescending(es))
  {
    if es != [] {
      SortedDistinct(es[1..]);
      var tail := ByLengthDescending(es[1..]);
      forall i | 0 <= i < |tail| ensures tail[i].key != es[0].key {
        assert tail[i] in multiset(tail);
        assert tail[i] in es[1..];
      }
      InsertDistinct(es[0], tail);
    }
  }

  lemma {:induction false} InsertDistinct(e: Entry, es: seq<Entry>)
    requires DistinctKeys(es)
    requires forall i :: 0 <= i < |es| ==> es[i].key != e.key
    ensures DistinctKeys(InsertByLength(e, es))
  {
    if es != [] && |e.value| < |es[0].value| {
      InsertDistinct(e, es[1..]);
      var tail := InsertByLength(e, es[1..]);
      forall j | 0 <= j < |tail| ensures tail[j].key != es[0].key {
        assert tail[j] in multiset(tail);
        assert tail[j] == e || tail[j] in es[1..];
      }
    }
  }

  lemma SortedMembersOf(es: seq<Entry>)
    ensures forall e :: e in ByLengthDescending(es) <==> e in es
  {
    forall e ensures e in ByLengthDescending(es) <==> e in es {
      assert e in multiset(ByLengthDescending(es)) <==> e in multiset(es);
    }
  }

  lemma SortedMapOk(es: seq<Entry>, text: string)
    requires MapOk(es)
    ensures MapOk(ByLengthDescending(es))
    ensures NoPlaceholder(ByLengthDescending(es), text) <==> NoPlaceholder(es, text)
  {
    var r := ByLengthDescending(es);
    SortedDistinct(es);
    SortedMembersOf(es);
    forall i | 0 <= i < |r| ensures NoBrackets(r[i].key) && NoBrackets(r[i].value) {
      assert r[i] in es;
    }
    forall i, j | 0 <= i < |r| && 0 <= j < |r| && r[j].value != "" ensures !Occurs(r[j].value, r[i].key) {
      assert r[i] in es && r[j] in es;
    }
    if NoPlaceholder(es, text) { PlaceholdersOf(es, r, text); }
    if NoPlaceholder(r, text) { PlaceholdersOf(r, es, text); }
  }

  lemma PlaceholdersOf(es: seq<Entry>, r: seq<Entry>, text: string)
    requires (forall e :: e in r ==> e in es) && NoPlaceholder(es, text)
    ensures NoPlaceholder(r, text)
  {
    forall i | 0 <= i < |r| && r[i].value != "" ensures !Occurs(Placeholder(r[i]), text) {
      assert r[i] in es;
    }
  }

  /**
   The filter pair: clean leaves no configured value, and smudge undoes clean exactly when the
   text held no placeholder of a configured value to begin with.
   */
  lemma CleanThenSmudge(text: string, es: seq<Entry>)
    requires MapOk(es)
    ensures var r := ByLengthDescending(es);
            && Cleaned(Rewrite(text, r, Clean), es)
            && (Rewrite(Rewrite(text, r, Clean), r, Smudge) == text <==> NoPlaceholder(es, text))
  {
    var r := ByLengthDescending(es);
    SortedMapOk(es, text);
    CleanThenSmudgeInOrder(text, r);
    SortedMembersOf(es);
    forall i | 0 <= i < |es| && es[i].value != "" ensures !Occurs(es[i].value, Rewrite(text, r, Clean)) {
      assert es[i] in r;
    }
  }

  /** A part of a text: one of its characters, or a configured value. */
  datatype Piece = Plain(c: char) | Secret(e: Entry)

  function OneTold(p: Piece, hidden: bool): string {
    match p
    case Plain(c) => [c]
    case Secret(e) => if hidden then "<" + e.key + ">" else e.value
  }

  /** The text made of these pieces, its secrets in clear or as their keys in angle brackets. */
  function Told(pieces: seq<Piece>, hidden: bool): string {
    if pieces == [] then "" else OneTold(pieces[0], hidden) + Told(pieces[1..], hidden)
  }

  function PieceOf(t: Token, es: seq<Entry>): Piece
    requires t.Hole? ==> t.i < |es|
  {
    if t.Char? then Plain(t.c) else Secret(es[t.i])
  }

  function PiecesOf(ts: seq<Token>, es: seq<Entry>): seq<Piece>
    requires HolesIn(ts, es)
  {
    if ts == [] then [] else [PieceOf(ts[0], es)] + PiecesOf(ts[1..], es)
  }

  lemma OneAsShown(t: Token, es: seq<Entry>)
    requires t.Hole? ==> t.i < |es| && es[t.i].value != ""
    ensures OneTold(PieceOf(t, es), true) == ShowOne(t, es, 0) && OneTold(PieceOf(t, es), false) == ShowOne(t, es, |es|)
    ensures PieceOf(t, es).Secret? ==> PieceOf(t, es).e in es && PieceOf(t, es).e.value != ""
  {}

  lemma {:induction false} ToldAsShown(ts: seq<Token>, es: seq<Entry>)
    requires HolesIn(ts, es)
    ensures Told(PiecesOf(ts, es), true) == Show(ts, es, 0) && Told(PiecesOf(ts, es), false) == Show(ts, es, |es|)
    ensures forall e :: Secret(e) in PiecesOf(ts, es) ==> e in es && e.value != ""
  {
    hide OneTold, PieceOf, ShowOne;
    if ts != [] {
      var rest := PiecesOf(ts[1..], es);
      ToldAsShown(ts[1..], es);
      OneAsShown(ts[0], es);
      assert ([PieceOf(ts[0], es)] + rest)[1..] == rest;
    }
  }

  /** What clean writes: the text with some configured values put as their keys in angle brackets, and nothing else changed. */
  lemma CleanWrites(text: string, es: seq<Entry>) returns (pieces: seq<Piece>)
    requires MapOk(es)
    ensures Told(pieces, false) == text && Told(pieces, true) == Rewrite(text, ByLengthDescending(es), Clean)
    ensures forall e :: Secret(e) in pieces ==> e in es && e.value != ""
  {
    hide MapOk, Occurs, HolesIn, Show, CleanTokens, Rewrite, Told, PiecesOf;
    var r := ByLengthDescending(es);
    SortedMapOk(es, text);
    SortedMembersOf(es);
    CleanInvariant(text, r, |r|);
    assert r[..|r|] == r;
    var ts := CleanTokens(text, r, |r|);
    ToldAsShown(ts, r);
    pieces := PiecesOf(ts, r);
  }

  /** A text that already holds a placeholder of a configured value is never given back. */
  lemma PlaceholderInText(text: string, es: seq<Entry>, i: nat)
    requires MapOk(es) && i < |es| && es[i].value != "" && Occurs(Placeholder(es[i]), text)
    ensures Rewrite(Rewrite(text, ByLengthDescending(es), Clean), ByLengthDescending(es), Smudge) != text
  {
    hide Occurs, Rewrite, MapOk;
    CleanThenSmudge(text, es);
  }

  /* ----- the condition on keys cannot be dropped ----- */

  predicate FirstBracketOpens(s: string) {
    s != "" && (s[0] == '<' || (s[0] != '>' && FirstBracketOpens(s[1..])))
  }

  lemma {:induction false} ClosesFirst(k: string, s: string)
    requires NoBrackets(k) && k + ">" <= s
    ensures !FirstBracketOpens(s)
  {
    assert (k + ">")[0] == s[0];
    if k != "" {
      assert (k + ">")[1..] == k[1..] + ">" && s == (k + ">") + s[|k| + 1..];
      assert k[1..] + ">" <= s[1..];
      ClosesFirst(k[1..], s[1..]);
    }
  }

  lemma {:induction false} OpensAfter(a: string, b: string)
    requires NoBrackets(a)
    ensures FirstBracketOpens(a + "<" + b)
  {
    var s := a + "<" + b;
    assert s[0] == if a == "" then '<' else a[0];
    if a != "" {
      assert s[1..] == a[1..] + "<" + b;
      OpensAfter(a[1..], b);
    }
  }

  /** Replacing a value that occurs in a key puts the placeholder before the key's own bracket. */
  lemma {:induction false} FirstReplaced(k: string, w: string, r: string) returns (a: string, b: string)
    requires NoBrackets(k) && NoBrackets(w) && w != "" && Occurs(w, k)
    ensures NoBrackets(a) && Replace(k + ">", w, r) == a + (r + b)
  {
    var s := k + ">";
    assert k[0..] == k;
    PrefixSplit(w, k, ">");
    if w <= k {
      a, b := "", Replace(s[|w|..], w, r);
      assert a + (r + b) == r + b;
    } else {
      OccursInTail(w, k);
      var a', b' := FirstReplaced(k[1..], w, r);
      a, b := [k[0]] + a', b';
      assert s[1..] == k[1..] + ">" && !(w <= s);
      assert [k[0]] + (a' + (r + b)) == a + (r + b);
    }
  }

  lemma OneClean(v: string, r: string)
    requires v != ""
    ensures Replace(v, v, r) == r
  {
    assert v[|v|..] == "";
    assert r + "" == r;
  }

  /**
   Two entries, the key of the longer value holding the shorter value: the placeholder is itself
   rewritten by the second pass, and smudge does not give even the bare longer value back.
   */
  lemma KeyHoldingValue(e: Entry, f: Entry)
    requires NoBrackets(e.key) && NoBrackets(e.value) && NoBrackets(f.key) && NoBrackets(f.value)
    requires e.key != f.key && f.value != "" && |e.value| >= |f.value| && Occurs(f.value, e.key)
    ensures ByLengthDescending([e, f]) == [e, f] && NoPlaceholder([e, f], e.value)
    ensures Rewrite(Rewrite(e.value, [e, f], Clean), [e, f], Smudge) != e.value
  {
    hide Occurs, Replace;
    var es, pe, pf := [e, f], Placeholder(e), Placeholder(f);
    OrderOfTwo(e, f);
    NoPlaceholderInValue(e, e.value);
    NoPlaceholderInValue(f, e.value);
    TwoSteps(e.value, es, Clean);
    OneClean(e.value, pe);
    var a, b := FirstReplaced(e.key, f.value, pf);
    var x := a + (pf + b);
    FirstCharKept('<', e.key + ">", f.value, pf);
    assert pe == "<" + (e.key + ">");
    var t := "<" + x;
    TwoSteps(t, es, Smudge);
    assert x == a + "<" + (f.key + ">" + b);
    OpensAfter(a, f.key + ">" + b);
    if e.key + ">" <= x { ClosesFirst(e.key, x); }
    KeepsOpening('<', e.key + ">", x, e.value);
    var y := FirstStays(a, e, f, b);
    if f.key + ">" <= Replace(x, pe, e.value) { ClosesFirst(f.key, Replace(x, pe, e.value)); }
    KeepsOpening('<', f.key + ">", Replace(x, pe, e.value), f.value);
    assert pf == "<" + (f.key + ">");
    assert Rewrite(t, es, Smudge)[0] == '<';
  }

  lemma OrderOfTwo(e: Entry, f: Entry)
    requires |e.value| >= |f.value|
    ensures ByLengthDescending([e, f]) == [e, f]
  {
    assert [e, f][1..] == [f] && [f][1..] == [];
    assert ByLengthDescending([f]) == [f];
  }

  lemma NoPlaceholderInValue(e: Entry, v: string)
    requires NoBrackets(v)
    ensures !Occurs(Placeholder(e), v)
  {
    forall k | 0 <= k <= |v| ensures !(Placeholder(e) <= v[k..]) {
      assert Placeholder(e)[0] == '<';
      assert k < |v| ==> v[k..][0] == v[k];
    }
  }

  /** A first character that cannot start the word is copied. */
  lemma FirstCharKept(c: char, s: string, w: string, r: string)
    requires w != "" && w[0] != c
    ensures Replace([c] + s, w, r) == [c] + Replace(s, w, r)
  {
    assert ([c] + s)[1..] == s && ([c] + s)[0] == c;
  }

  /** So is an opening bracket whose placeholder does not follow. */
  lemma KeepsOpening(c: char, w: string, s: string, r: string)
    requires !(w <= s)
    ensures Replace([c] + s, [c] + w, r) == [c] + Replace(s, [c] + w, r)
  {
    ConsPrefix(c, w, c, s);
    assert ([c] + s)[1..] == s;
  }

  /** The second placeholder's opening bracket survives smudging the first entry. */
  lemma FirstStays(a: string, e: Entry, f: Entry, b: string) returns (y: string)
    requires NoBrackets(a) && NoBrackets(e.key) && NoBrackets(f.key) && e.key != f.key
    ensures Replace(a + (Placeholder(f) + b), Placeholder(e), e.value) == a + "<" + y
    ensures FirstBracketOpens(a + "<" + y)
  {
    hide Replace;
    var pe, pf := Placeholder(e), Placeholder(f);
    var rest := pf + b;
    SamePlaceholder(e, f, b);
    forall k | 0 <= k < |a| ensures !(pe <= a[k..] + rest) {
      assert (a[k..] + rest)[0] == a[k] && pe[0] == '<';
    }
    CopyStretch(a, rest, pe, e.value);
    var tail := f.key + ">" + b;
    assert rest == "<" + tail && pe == "<" + (e.key + ">");
    if e.key + ">" <= tail { ConsPrefix('<', e.key + ">", '<', tail); }
    KeepsOpening('<', e.key + ">", tail, e.value);
    y := Replace(tail, pe, e.value);
    assert a + ("<" + y) == a + "<" + y;
    OpensAfter(a, y);
  }

  lemma TwoSteps(text: string, es: seq<Entry>, mode: Mode)
    requires |es| == 2
    ensures Rewrite(text, es, mode) == Step(Step(text, es[0], mode), es[1], mode)
  {
    assert Rewrite(text, es[..1], mode) == Step(Rewrite(text, es[..1][..0], mode), es[0], mode);
  }
}
