/** Trimming, reversing and upper-casing told place by place, apart from the functions that do them. */
module TextPlaces {
  import opened Text

  /** `out` is `s` read backwards. */
  predicate Backwards(s: string, out: string) {
    |out| == |s| && forall k | 0 <= k < |s| :: out[k] == s[|s| - 1 - k]
  }

  lemma BackwardsIsReversed(s: string, out: string)
    ensures Backwards(s, out) <==> out == Reversed(s)
  {
    forall k | 0 <= k < |s| ensures Reversed(s)[k] == s[|s| - 1 - k] { ReverseAt(s, k); }
  }

  // ---- trimming ----

  /** `s` is white space up to `i` and from `j` on, and bare in between. */
  predicate Bares(s: string, i: nat, j: nat)
    requires i <= j <= |s|
  {
    && (forall k | 0 <= k < i :: IsSpace(s[k])) && (forall k | j <= k < |s| :: IsSpace(s[k]))
    && (i < j ==> !IsSpace(s[i]) && !IsSpace(s[j - 1]))
  }

  /** `core` is `s` without the white space at its ends. */
  ghost predicate IsCore(s: string, core: string) {
    exists i: nat, j: nat :: i <= j <= |s| && Bares(s, i, j) && core == s[i..j]
  }

  lemma {:induction false} StartBared(s: string)
    ensures var i := |s| - |TrimStart(s)|;
            i >= 0 && (forall k | 0 <= k < i :: IsSpace(s[k])) && TrimStart(s) == s[i..]
  {
    hide IsSpace;
    if s != [] && IsSpace(s[0]) { StartBared(s[1..]); }
  }

  lemma {:induction false} EndBared(s: string)
    ensures forall k | |TrimEnd(s)| <= k < |s| :: IsSpace(s[k])
  {
    hide IsSpace;
    if s != [] && IsSpace(s[|s| - 1]) { EndBared(s[..|s| - 1]); }
  }

  lemma TrimBares(s: string) returns (i: nat, j: nat)
    ensures i <= j <= |s| && Bares(s, i, j) && Trim(s) == s[i..j]
  {
    var inner := TrimStart(s);
    var core := TrimEnd(inner);
    StartBared(s);
    EndBared(inner);
    assert Trim(s) == core;
    hide IsSpace, TrimStart, TrimEnd, Trim;
    i := |s| - |inner|;
    j := i + |core|;
    CoreWithin(s, inner, core, i);
  }

  lemma CoreWithin(s: string, inner: string, core: string, i: nat)
    requires i + |inner| == |s| && inner == s[i..] && |core| <= |inner| && core == inner[..|core|] && Trimmed(core)
    requires (forall k | 0 <= k < i :: IsSpace(s[k])) && (forall k | |core| <= k < |inner| :: IsSpace(inner[k]))
    ensures Bares(s, i, i + |core|) && core == s[i..i + |core|]
  {
    hide IsSpace;
    forall k | i + |core| <= k < |s| ensures IsSpace(s[k]) { assert inner[k - i] == s[k]; }
    if core != [] { assert core[0] == s[i] && core[|core| - 1] == s[i + |core| - 1]; }
  }

  lemma OneCore(s: string, a: nat, b: nat, i: nat, j: nat)
    requires a <= b <= |s| && Bares(s, a, b) && i <= j <= |s| && Bares(s, i, j)
    ensures s[a..b] == s[i..j]
  {
    hide IsSpace;
    if i < j { assert a <= i && j <= b; }
    if a < b { assert i <= a && b <= j; }
  }

  /** Trimming gives the core, and there is only one. */
  lemma CoreIsTrimmed(s: string, core: string)
    ensures IsCore(s, core) <==> core == Trim(s)
  {
    var i, j := TrimBares(s);
    hide Bares, Trim;
    forall a: nat, b: nat | a <= b <= |s| && Bares(s, a, b) ensures s[a..b] == s[i..j] { OneCore(s, a, b, i, j); }
  }

  // ---- upper case ----

  /** The `k`-th piece of `out` is the image of the `k`-th character. */
  predicate PieceAt(upper: char -> string, s: string, out: string, cuts: seq<nat>, k: nat)
    requires |cuts| == |s| + 1 && k < |s|
  {
    cuts[k] <= cuts[k + 1] <= |out| && out[cuts[k]..cuts[k + 1]] == upper(s[k])
  }

  predicate Cut(upper: char -> string, s: string, out: string, cuts: seq<nat>) {
    && |cuts| == |s| + 1 && cuts[0] == 0 && cuts[|s|] == |out|
    && forall k | 0 <= k < |s| :: PieceAt(upper, s, out, cuts, k)
  }

  /** `out` falls into the images of the characters of `s`, one after the other. */
  ghost predicate Images(upper: char -> string, s: string, out: string) {
    exists cuts :: Cut(upper, s, out, cuts)
  }

  lemma {:induction false} UpperIsCut(upper: char -> string, s: string) returns (cuts: seq<nat>)
    ensures Cut(upper, s, UpperAll(upper, s), cuts)
  {
    if s == [] {
      cuts := [0];
    } else {
      var n := |s| - 1;
      var init, last := s[..n], [s[n]];
      var before := UpperIsCut(upper, init);
      assert s == init + last;
      UpperAllConcat(upper, init, last);
      assert UpperAll(upper, last) == upper(s[n]) + UpperAll(upper, []) == upper(s[n]);
      var head, out := UpperAll(upper, init), UpperAll(upper, s);
      cuts := before + [|out|];
      hide UpperAll;
      forall k | 0 <= k < |s| ensures PieceAt(upper, s, out, cuts, k) {
        if k < n {
          assert PieceAt(upper, init, head, before, k);
          assert out[cuts[k]..cuts[k + 1]] == head[cuts[k]..cuts[k + 1]];
        }
      }
    }
  }

  lemma {:induction false} CutIsUpper(upper: char -> string, s: string, out: string, cuts: seq<nat>)
    requires Cut(upper, s, out, cuts)
    ensures out == UpperAll(upper, s)
  {
    if s != [] {
      var n := |s| - 1;
      assert PieceAt(upper, s, out, cuts, n);
      var init, last, head, before := s[..n], [s[n]], out[..cuts[n]], cuts[..n + 1];
      forall k | 0 <= k < n ensures PieceAt(upper, init, head, before, k) {
        CutsGrow(upper, s, out, cuts, k + 1, n);
        assert PieceAt(upper, s, out, cuts, k);
        assert head[cuts[k]..cuts[k + 1]] == out[cuts[k]..cuts[k + 1]];
      }
      CutIsUpper(upper, init, head, before);
      assert s == init + last && out == head + out[cuts[n]..cuts[n + 1]];
      UpperAllConcat(upper, init, last);
      assert UpperAll(upper, last) == upper(s[n]) + UpperAll(upper, []) == upper(s[n]);
    }
  }

  lemma {:induction false} CutsGrow(upper: char -> string, s: string, out: string, cuts: seq<nat>, i: nat, j: nat)
    requires Cut(upper, s, out, cuts) && i <= j <= |s|
    ensures cuts[i] <= cuts[j]
    decreases j
  {
    if i < j {
      CutsGrow(upper, s, out, cuts, i, j - 1);
      assert PieceAt(upper, s, out, cuts, j - 1);
    }
  }

  /** Upper-casing gives the images in order, and nothing else does. */
  lemma ImagesAreUpper(upper: char -> string, s: string, out: string)
    ensures Images(upper, s, out) <==> out == UpperAll(upper, s)
  {
    var cuts := UpperIsCut(upper, s);
    hide Cut, UpperAll;
    forall cuts | Cut(upper, s, out, cuts) ensures out == UpperAll(upper, s) { CutIsUpper(upper, s, out, cuts); }
  }

  /** With a table that maps each character to one, place by place. */
  lemma OneToOneImages(upper: char -> string, s: string, out: string)
    requires Images(upper, s, out) && forall c | c in s :: |upper(c)| == 1
    ensures |out| == |s| && forall k | 0 <= k < |s| :: out[k] == upper(s[k])[0]
  {
    var cuts :| Cut(upper, s, out, cuts);
    forall k: nat | k <= |s| ensures cuts[k] == k { UnitCuts(upper, s, out, cuts, k); }
    forall k | 0 <= k < |s| ensures out[k] == upper(s[k])[0] {
      assert PieceAt(upper, s, out, cuts, k) && cuts[k] == k;
      assert out[cuts[k]..cuts[k + 1]][0] == out[k];
    }
  }

  lemma {:induction false} UnitCuts(upper: char -> string, s: string, out: string, cuts: seq<nat>, n: nat)
    requires Cut(upper, s, out, cuts) && n <= |s| && forall c | c in s :: |upper(c)| == 1
    ensures cuts[n] == n
  {
    if n > 0 {
      UnitCuts(upper, s, out, cuts, n - 1);
      assert PieceAt(upper, s, out, cuts, n - 1);
    }
  }
}
