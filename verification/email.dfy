/** The two e-mail patterns of the application. The server tests the
    anchored `^[^\s@]+@[^\s@]+\.[^\s@]+$`; the modal tests the unanchored
    `\S+@\S+\.\S+`. Each pattern's meaning is stated as the existence of a
    match (`AnchoredMatch`, `UnanchoredMatch`); each test is a direct check
    (`ServerEmailOk`, `ClientEmailOk`) proved equivalent to it. */
module Email {
  import opened Wrappers
  import opened Text

  /** `[^\s@]*`: no white space and no `@`. */
  predicate Plain(s: string) {
    forall i :: 0 <= i < |s| ==> !IsSpace(s[i]) && s[i] != '@'
  }

  /** A match of the anchored pattern with its `@` at `p` and the dot it
      requires at `q`: the whole string is `L@D.T` with L, D and T non-empty
      and `Plain`. D and T may contain dots. */
  predicate AnchoredSplit(e: string, p: nat, q: nat) {
    && 0 < p && p + 1 < q && q + 1 < |e|
    && e[p] == '@' && e[q] == '.'
    && Plain(e[..p]) && Plain(e[p + 1..q]) && Plain(e[q + 1..])
  }

  ghost predicate AnchoredMatch(e: string) {
    exists p: nat, q: nat :: AnchoredSplit(e, p, q)
  }

  /** A match of the unanchored pattern in the window `e[a..b]`: the window
      has no white space and reads `X@Y.Z` with X, Y and Z non-empty, the
      `@` at `p` and the dot at `q`. `\S` admits `@` and `.` in all three
      parts. */
  predicate UnanchoredWindow(e: string, a: nat, p: nat, q: nat, b: nat) {
    && a < p && p + 1 < q && q + 1 < b <= |e|
    && e[p] == '@' && e[q] == '.'
    && NoSpace(e[a..b])
  }

  ghost predicate UnanchoredMatch(e: string) {
    exists a: nat, p: nat, q: nat, b: nat :: UnanchoredWindow(e, a, p, q, b)
  }

  /** `Plain` for a slice, from the characters it covers. */
  lemma PlainSlice(e: string, lo: nat, hi: nat)
    requires lo <= hi <= |e|
    requires forall i :: lo <= i < hi ==> !IsSpace(e[i]) && e[i] != '@'
    ensures Plain(e[lo..hi])
  {
    forall k | 0 <= k < hi - lo ensures !IsSpace(e[lo..hi][k]) && e[lo..hi][k] != '@' {
      assert e[lo..hi][k] == e[lo + k];
    }
  }

  /** `NoSpace` for a slice, from the characters it covers. */
  lemma NoSpaceSlice(e: string, lo: nat, hi: nat)
    requires lo <= hi <= |e|
    requires forall i :: lo <= i < hi ==> !IsSpace(e[i])
    ensures NoSpace(e[lo..hi])
  {
    forall k | 0 <= k < hi - lo ensures !IsSpace(e[lo..hi][k]) {
      assert e[lo..hi][k] == e[lo + k];
    }
  }

  /** The index of the first `c` in `s`, if any. */
  function IndexOf(s: string, c: char): (r: Option<nat>)
    ensures r.None? ==> forall i :: 0 <= i < |s| ==> s[i] != c
    ensures r.Some? ==> r.value < |s| && s[r.value] == c && forall i :: 0 <= i < r.value ==> s[i] != c
    decreases |s|
  {
    if s == [] then None
    else if s[0] == c then Some(0)
    else match IndexOf(s[1..], c)
      case None => None
      case Some(k) => Some(k + 1)
  }

  /** The server's test: no white space anywhere, exactly one `@`, not in
      first place, and a dot strictly inside the part after it, with at
      least one character on each side of the dot. */
  predicate ServerEmailOk(e: string) {
    match IndexOf(e, '@')
    case None => false
    case Some(p) =>
      && 0 < p && p + 3 < |e|
      && NoSpace(e)
      && IndexOf(e[p + 1..], '@').None?
      && IndexOf(e[p + 2..|e| - 1], '.').Some?
  }

  /** The server's test accepts exactly the matches of the anchored
      pattern. */
  lemma ServerEmailOkIff(e: string)
    ensures ServerEmailOk(e) <==> AnchoredMatch(e)
  {
    if ServerEmailOk(e) {
      var p := IndexOf(e, '@').value;
      var inner := e[p + 2..|e| - 1];
      var k := IndexOf(inner, '.').value;
      var q := p + 2 + k;
      assert e[q] == inner[k];
      var after := e[p + 1..];
      forall i | p < i < |e| ensures e[i] != '@' {
        assert e[i] == after[i - p - 1];
      }
      PlainSlice(e, 0, p);
      PlainSlice(e, p + 1, q);
      PlainSlice(e, q + 1, |e|);
      assert e[..p] == e[0..p];
      assert e[q + 1..] == e[q + 1..|e|];
      assert AnchoredSplit(e, p, q);
    }
    if AnchoredMatch(e) {
      var p: nat, q: nat :| AnchoredSplit(e, p, q);
      AnchoredSplitMeansOk(e, p, q);
    }
  }

  /** Every character of an anchored match is non-space, and the `@` at `p`
      is the only one. */
  lemma AnchoredSplitChars(e: string, p: nat, q: nat)
    requires AnchoredSplit(e, p, q)
    ensures forall i :: 0 <= i < |e| ==> !IsSpace(e[i]) && (i != p ==> e[i] != '@')
  {
    forall i | 0 <= i < |e| ensures !IsSpace(e[i]) && (i != p ==> e[i] != '@') {
      if i < p {
        assert e[..p][i] == e[i];
      } else if p < i < q {
        assert e[p + 1..q][i - p - 1] == e[i];
      } else if q < i {
        assert e[q + 1..][i - q - 1] == e[i];
      }
    }
  }

  lemma AnchoredSplitMeansOk(e: string, p: nat, q: nat)
    requires AnchoredSplit(e, p, q)
    ensures ServerEmailOk(e)
  {
    AnchoredSplitChars(e, p, q);
    assert IndexOf(e, '@') == Some(p);
    var after := e[p + 1..];
    assert forall i :: 0 <= i < |after| ==> after[i] == e[i + p + 1];
    var inner := e[p + 2..|e| - 1];
    assert inner[q - p - 2] == '.';
  }

  /** The shortest match of the unanchored pattern around an `@` at `p` and
      a dot at `q`: one non-space character before the `@`, only non-space
      characters between them, one non-space character after the dot. */
  predicate ClientSplit(e: string, p: nat, q: nat) {
    && 1 <= p && p + 1 < q && q + 1 < |e|
    && e[p] == '@' && e[q] == '.'
    && !IsSpace(e[p - 1]) && NoSpace(e[p + 1..q]) && !IsSpace(e[q + 1])
  }

  /** The modal's test: some shortest match exists. */
  predicate ClientEmailOk(e: string) {
    exists p: nat, q: nat | p < |e| && q < |e| :: ClientSplit(e, p, q)
  }

  /** The modal's test accepts exactly the strings holding a match of the
      unanchored pattern: a match may always be shrunk to the shortest
      window around its `@` and dot. */
  lemma ClientEmailOkIff(e: string)
    ensures ClientEmailOk(e) <==> UnanchoredMatch(e)
  {
    if ClientEmailOk(e) {
      var p: nat, q: nat :| p < |e| && q < |e| && ClientSplit(e, p, q);
      forall i | p - 1 <= i < q + 2 ensures !IsSpace(e[i]) {
        if p + 1 <= i < q {
          assert e[i] == e[p + 1..q][i - p - 1];
        }
      }
      NoSpaceSlice(e, p - 1, q + 2);
      assert UnanchoredWindow(e, p - 1, p, q, q + 2);
    }
    if UnanchoredMatch(e) {
      var a: nat, p: nat, q: nat, b: nat :| UnanchoredWindow(e, a, p, q, b);
      forall i | a <= i < b ensures !IsSpace(e[i]) {
        assert e[i] == e[a..b][i - a];
      }
      NoSpaceSlice(e, p + 1, q);
      assert ClientSplit(e, p, q);
    }
  }

  /** Every address the server accepts, the modal accepts too. */
  lemma ServerEmailImpliesClient(e: string)
    requires ServerEmailOk(e)
    ensures ClientEmailOk(e)
  {
    ServerEmailOkIff(e);
    ClientEmailOkIff(e);
    var p: nat, q: nat :| AnchoredSplit(e, p, q);
    AnchoredSplitChars(e, p, q);
    NoSpaceSlice(e, 0, |e|);
    assert e[0..|e|] == e;
    assert UnanchoredWindow(e, 0, p, q, |e|);
  }

  /** The converse fails: "x y@a.b" passes the modal and not the server. */
  lemma ClientAcceptsWhatServerRejects()
    ensures ClientEmailOk("x y@a.b") && !ServerEmailOk("x y@a.b")
  {
    var e := "x y@a.b";
    assert e[3] == '@' && e[5] == '.' && e[2] == 'y' && e[6] == 'b' && e[4] == 'a';
    assert e[4..5] == "a";
    assert NoSpace(e[4..5]);
    assert ClientSplit(e, 3, 5);
    assert IsSpace(e[1]);
  }
}
