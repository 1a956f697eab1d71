/**
 * The string operations both content-script variants are built from:
 * the white-space normalisation of `textContent`
 * (`replace(/\s+/g, ' ').trim()`), `split` and `join` on a one-character
 * separator, substring search (`includes`, `split(sep)[0]`) and reading
 * decimal digits out of an endorsement caption.
 */
module Text {
  import opened Wrappers
  import opened Seqs

  // ---------- white space ----------

  /** JavaScript's `\s` class, which is also the set `trim()` removes. */
  predicate IsSpace(c: char) {
    || c == ' ' || c == '\t' || c == '\n' || c == '\r' || c == '\U{000B}' || c == '\U{000C}'
    || c == '\U{00A0}' || c == '\U{1680}' || ('\U{2000}' <= c <= '\U{200A}')
    || c == '\U{2028}' || c == '\U{2029}' || c == '\U{202F}' || c == '\U{205F}'
    || c == '\U{3000}' || c == '\U{FEFF}'
  }

  predicate AllSpace(s: string) {
    forall i :: 0 <= i < |s| ==> IsSpace(s[i])
  }

  /** No white space at either end. */
  predicate IsTrimmed(s: string) {
    s == [] || (!IsSpace(s[0]) && !IsSpace(s[|s| - 1]))
  }

  /** Every white-space character is a plain space and none follows another. */
  predicate IsSqueezed(s: string) {
    forall i :: 0 <= i < |s| && IsSpace(s[i]) ==> s[i] == ' ' && (i + 1 < |s| ==> !IsSpace(s[i + 1]))
  }

  /** The shape of every string `textContent` returns. */
  predicate IsNormal(s: string) {
    IsTrimmed(s) && IsSqueezed(s)
  }

  /** The characters of `s` that are not white space, in order. */
  function Visible(s: string): string {
    if s == [] then [] else (if IsSpace(s[0]) then [] else [s[0]]) + Visible(s[1..])
  }

  /** `s` without its leading white space. */
  function TrimStart(s: string): (r: string)
    ensures |r| <= |s| && r == s[|s| - |r|..]
    ensures AllSpace(s[..|s| - |r|])
    ensures r == [] || !IsSpace(r[0])
  {
    if s != [] && IsSpace(s[0]) then TrimStart(s[1..]) else s
  }

  /** `s` without its trailing white space. */
  function TrimEnd(s: string): (r: string)
    ensures |r| <= |s| && r == s[..|r|]
    ensures AllSpace(s[|r|..])
    ensures r == [] || !IsSpace(r[|r| - 1])
  {
    if s != [] && IsSpace(s[|s| - 1]) then TrimEnd(s[..|s| - 1]) else s
  }

  /** JavaScript `String.prototype.trim`. */
  function Trim(s: string): (r: string)
    ensures IsTrimmed(r)
  {
    var a := TrimStart(s);
    var r := TrimEnd(a);
    assert r != [] ==> r[0] == a[0];
    r
  }

  /**
   * `replace(/\s+/g, ' ')`: every maximal run of white space becomes one
   * space (a white-space character followed by another is dropped, the
   * last of a run becomes a space).
   */
  function Squeeze(s: string): string
    decreases |s|
  {
    if s == [] then []
    else if IsSpace(s[0]) then (if |s| > 1 && IsSpace(s[1]) then Squeeze(s[1..]) else " " + Squeeze(s[1..]))
    else [s[0]] + Squeeze(s[1..])
  }

  /** The normalisation `textContent` applies to an element's raw text. */
  function Normalize(s: string): (r: string)
    ensures IsNormal(r)
    ensures Visible(r) == Visible(s)
    ensures IsNormal(s) ==> r == s
  {
    NormalizeIsNormal(s);
    NormalizeKeepsVisible(s);
    NormalizeFixesNormal(s);
    Trim(Squeeze(s))
  }

  /**
   * `textContent(el)`: the normalised text of a present element, `null`
   * for an absent one.
   */
  function TextContent(el: Option<string>): (r: Option<string>)
    ensures r.Some? <==> el.Some?
    ensures r.Some? ==> IsNormal(r.value) && Visible(r.value) == Visible(el.value)
  {
    match el
    case None => None
    case Some(t) => Some(Normalize(t))
  }

  /** The text of an element whose text is already normal is that text itself. */
  lemma TextContentFixesNormal(el: Option<string>)
    ensures el.Some? && IsNormal(el.value) ==> TextContent(el) == el
  {
  }

  lemma SqueezedSlice(s: string, i: nat, j: nat)
    requires IsSqueezed(s) && i <= j <= |s|
    ensures IsSqueezed(s[i..j])
  {
    forall k | 0 <= k < j - i && IsSpace(s[i..j][k])
      ensures s[i..j][k] == ' ' && (k + 1 < j - i ==> !IsSpace(s[i..j][k + 1]))
    {
      assert s[i..j][k] == s[i + k];
      if k + 1 < j - i { assert s[i..j][k + 1] == s[i + k + 1]; }
    }
  }

  lemma {:induction false} SqueezeIsSqueezed(s: string)
    ensures IsSqueezed(Squeeze(s))
    decreases |s|
  {
    if s != [] {
      var q := Squeeze(s[1..]);
      SqueezeIsSqueezed(s[1..]);
      if IsSpace(s[0]) && |s| > 1 && IsSpace(s[1]) {
      } else {
        var r := (if IsSpace(s[0]) then " " else [s[0]]) + q;
        assert |s| > 1 && !IsSpace(s[1]) ==> q[0] == s[1];
        forall k | 0 <= k < |r| && IsSpace(r[k])
          ensures r[k] == ' ' && (k + 1 < |r| ==> !IsSpace(r[k + 1]))
        {
          if k > 0 { assert r[k] == q[k - 1]; }
          if k + 1 < |r| { assert r[k + 1] == q[k]; }
        }
      }
    }
  }

  /** Collapsing and trimming leaves no white space at the ends and no run of two. */
  lemma NormalizeIsNormal(s: string)
    ensures IsNormal(Trim(Squeeze(s)))
  {
    var q := Squeeze(s);
    SqueezeIsSqueezed(s);
    var a := TrimStart(q);
    SqueezedSlice(q, |q| - |a|, |q|);
    var b := TrimEnd(a);
    SqueezedSlice(a, 0, |b|);
  }

  lemma {:induction false} VisibleConcat(a: string, b: string)
    ensures Visible(a + b) == Visible(a) + Visible(b)
    decreases |a|
  {
    if a == [] {
      assert a + b == b;
    } else {
      assert (a + b)[1..] == a[1..] + b;
      VisibleConcat(a[1..], b);
    }
  }

  lemma {:induction false} VisibleOfSpace(a: string)
    requires AllSpace(a)
    ensures Visible(a) == []
    decreases |a|
  {
    if a != [] { VisibleOfSpace(a[1..]); }
  }

  lemma {:induction false} TrimStartKeepsVisible(s: string)
    ensures Visible(TrimStart(s)) == Visible(s)
    decreases |s|
  {
    if s != [] && IsSpace(s[0]) {
      TrimStartKeepsVisible(s[1..]);
    }
  }

  lemma TrimEndKeepsVisible(s: string)
    ensures Visible(TrimEnd(s)) == Visible(s)
  {
    var r := TrimEnd(s);
    assert s == r + s[|r|..];
    VisibleConcat(r, s[|r|..]);
    VisibleOfSpace(s[|r|..]);
  }

  lemma {:induction false} SqueezeKeepsVisible(s: string)
    ensures Visible(Squeeze(s)) == Visible(s)
    decreases |s|
  {
    if s != [] {
      SqueezeKeepsVisible(s[1..]);
      if IsSpace(s[0]) {
        VisibleConcat(" ", Squeeze(s[1..]));
      } else {
        VisibleConcat([s[0]], Squeeze(s[1..]));
      }
    }
  }

  /** Normalisation changes only white space: the other characters stay, in order. */
  lemma NormalizeKeepsVisible(s: string)
    ensures Visible(Trim(Squeeze(s))) == Visible(s)
  {
    SqueezeKeepsVisible(s);
    TrimStartKeepsVisible(Squeeze(s));
    TrimEndKeepsVisible(TrimStart(Squeeze(s)));
  }

  lemma {:induction false} SqueezeFixesSqueezed(s: string)
    requires IsSqueezed(s)
    ensures Squeeze(s) == s
    decreases |s|
  {
    if s != [] {
      SqueezedSlice(s, 1, |s|);
      SqueezeFixesSqueezed(s[1..]);
    }
  }

  /** Normalising an already normal string changes nothing. */
  lemma NormalizeFixesNormal(s: string)
    ensures IsNormal(s) ==> Trim(Squeeze(s)) == s
  {
    if IsNormal(s) {
      SqueezeFixesSqueezed(s);
    }
  }

  /** A string that ends in a visible character keeps it at its end once its leading white space is gone. */
  lemma {:induction false} TrimStartKeepsLast(x: string)
    requires x != [] && !IsSpace(x[|x| - 1])
    ensures TrimStart(x) != [] && TrimStart(x)[|TrimStart(x)| - 1] == x[|x| - 1]
    decreases |x|
  {
    if IsSpace(x[0]) {
      assert x[1..][|x| - 2] == x[|x| - 1];
      TrimStartKeepsLast(x[1..]);
    }
  }

  /** Leading white space is removed from the first part alone when that part holds a visible character. */
  lemma {:induction false} TrimStartConcat(x: string, y: string)
    requires x != [] && !IsSpace(x[|x| - 1])
    ensures TrimStart(x + y) == TrimStart(x) + y
    decreases |x|
  {
    if IsSpace(x[0]) {
      assert (x + y)[1..] == x[1..] + y;
      TrimStartConcat(x[1..], y);
    }
  }

  /** Trailing white space is removed from the last part alone when that part starts with a visible character. */
  lemma {:induction false} TrimEndConcat(x: string, y: string)
    requires y != [] && !IsSpace(y[0])
    ensures TrimEnd(x + y) == x + TrimEnd(y)
    decreases |y|
  {
    if IsSpace(y[|y| - 1]) {
      var y' := y[..|y| - 1];
      assert (x + y)[..|x + y| - 1] == x + y';
      TrimEndConcat(x, y');
    }
  }

  /** Collapsing a string that ends in a visible character ends in that character. */
  lemma {:induction false} SqueezeKeepsLast(a: string)
    requires a != [] && !IsSpace(a[|a| - 1])
    ensures Squeeze(a) != [] && Squeeze(a)[|Squeeze(a)| - 1] == a[|a| - 1]
    decreases |a|
  {
    if |a| > 1 {
      assert a[1..][|a| - 2] == a[|a| - 1];
      SqueezeKeepsLast(a[1..]);
    }
  }

  /** White space collapses separately on both sides of a visible character. */
  lemma {:induction false} SqueezeConcat(a: string, y: string)
    requires a == [] || !IsSpace(a[|a| - 1])
    ensures Squeeze(a + y) == Squeeze(a) + Squeeze(y)
    decreases |a|
  {
    if a == [] {
      assert a + y == y;
    } else {
      if |a| > 1 { assert a[1..][|a| - 2] == a[|a| - 1]; }
      SqueezeConcat(a[1..], y);
      assert (a + y)[1..] == a[1..] + y;
      if |a| > 1 { assert (a + y)[1] == a[1]; }
    }
  }

  /** A run of white space in front of a visible character collapses to one space. */
  lemma {:induction false} SqueezeRun(w: string, b: string)
    requires w != [] && AllSpace(w)
    requires b != [] && !IsSpace(b[0])
    ensures Squeeze(w + b) == " " + Squeeze(b)
    decreases |w|
  {
    assert (w + b)[1..] == w[1..] + b;
    if |w| > 1 {
      SqueezeRun(w[1..], b);
    } else {
      assert w[1..] + b == b;
    }
  }

  /** A run of white space between two visible characters collapses to one space. */
  lemma SqueezeWords(a: string, w: string, b: string)
    requires a != [] && !IsSpace(a[|a| - 1])
    requires w != [] && AllSpace(w)
    requires b != [] && !IsSpace(b[0])
    ensures Squeeze(a + w + b) == Squeeze(a) + " " + Squeeze(b)
  {
    SqueezeRun(w, b);
    assert a + w + b == a + (w + b);
    SqueezeConcat(a, w + b);
  }

  /** Collapsing white space leaves white space only. */
  lemma {:induction false} SqueezeOfSpace(x: string)
    requires AllSpace(x)
    ensures AllSpace(Squeeze(x))
    decreases |x|
  {
    if x != [] {
      SqueezeOfSpace(x[1..]);
      var q := Squeeze(x[1..]);
      assert forall i :: 0 < i < |" " + q| ==> (" " + q)[i] == q[i - 1];
    }
  }

  /** A string of white space only normalises to the empty string. */
  lemma NormalizeOfSpace(x: string)
    requires AllSpace(x)
    ensures Normalize(x) == ""
  {
    SqueezeOfSpace(x);
    TrimStartOfSpace(Squeeze(x));
  }

  /** Leading white space is all there is of a string of white space. */
  lemma {:induction false} TrimStartOfSpace(x: string)
    requires AllSpace(x)
    ensures TrimStart(x) == []
    decreases |x|
  {
    if x != [] {
      TrimStartOfSpace(x[1..]);
    }
  }

  /** Trailing white space after a visible character is exactly what `TrimEnd` removes. */
  lemma {:induction false} TrimEndOfSpaced(x: string, p: string)
    requires x == [] || !IsSpace(x[|x| - 1])
    requires AllSpace(p)
    ensures TrimEnd(x + p) == x
    decreases |p|
  {
    if p == [] {
      assert x + p == x;
    } else {
      var p' := p[..|p| - 1];
      assert (x + p)[..|x + p| - 1] == x + p';
      TrimEndOfSpaced(x, p');
    }
  }

  /** White space after a visible character does not survive trimming. */
  lemma TrimDropsSpaceAfter(x: string, p: string)
    requires x != [] && !IsSpace(x[|x| - 1])
    requires AllSpace(p)
    ensures Trim(x + p) == Trim(x)
  {
    TrimStartConcat(x, p);
    TrimStartKeepsLast(x);
    TrimEndOfSpaced(TrimStart(x), p);
    TrimOfVisibleLast(x);
  }

  /** A single space before a visible character does not survive trimming. */
  lemma TrimDropsSpaceBefore(y: string)
    requires y != [] && !IsSpace(y[0])
    ensures Trim(" " + y) == Trim(y)
  {
    assert (" " + y)[1..] == y;
  }

  /** White space in front of a string that starts with a visible character does not change its normal form. */
  lemma NormalizeSkipsSpaceBefore(u: string, b: string)
    requires AllSpace(u)
    requires b != [] && !IsSpace(b[0])
    ensures Normalize(u + b) == Normalize(b)
  {
    if u == [] {
      assert u + b == b;
    } else {
      SqueezeRun(u, b);
      assert Squeeze(b)[0] == b[0];
      TrimDropsSpaceBefore(Squeeze(b));
    }
  }

  /** Two runs of white space side by side make one run. */
  lemma AllSpaceConcat(x: string, y: string)
    requires AllSpace(x) && AllSpace(y)
    ensures AllSpace(x + y)
  {
    forall i | 0 <= i < |x + y| ensures IsSpace((x + y)[i]) {
      if i >= |x| { assert (x + y)[i] == y[i - |x|]; }
    }
  }

  /** White space in front of a run of white space and a visible start does not change the normal form. */
  lemma NormalizeSkipsMoreSpace(w: string, t: string, b: string)
    requires AllSpace(w) && AllSpace(t)
    requires b == [] || !IsSpace(b[0])
    ensures Normalize(w + t + b) == Normalize(t + b)
  {
    AllSpaceConcat(w, t);
    if b == [] {
      assert t + b == t && w + t + b == w + t;
      NormalizeOfSpace(t);
      NormalizeOfSpace(w + t);
    } else {
      NormalizeSkipsSpaceBefore(t, b);
      NormalizeSkipsSpaceBefore(w + t, b);
    }
  }

  /** `trim()` after the collapse: leading white space does not change the normal form. */
  lemma NormalizeDropsLeadingSpace(w: string, s: string)
    requires AllSpace(w)
    ensures Normalize(w + s) == Normalize(s)
  {
    var b := TrimStart(s);
    var t := s[..|s| - |b|];
    assert s == t + b;
    assert w + s == w + t + b;
    NormalizeSkipsMoreSpace(w, t, b);
  }

  /** White space after a string that ends in a visible character does not change its normal form. */
  lemma NormalizeSkipsSpaceAfter(a: string, t: string)
    requires a != [] && !IsSpace(a[|a| - 1]) && AllSpace(t)
    ensures Normalize(a + t) == Normalize(a)
  {
    SqueezeConcat(a, t);
    SqueezeOfSpace(t);
    SqueezeKeepsLast(a);
    TrimDropsSpaceAfter(Squeeze(a), Squeeze(t));
  }

  /** `trim()` after the collapse: trailing white space does not change the normal form. */
  lemma NormalizeDropsTrailingSpace(s: string, w: string)
    requires AllSpace(w)
    ensures Normalize(s + w) == Normalize(s)
  {
    var a := TrimEnd(s);
    var t := s[|a|..];
    assert s == a + t;
    assert s + w == a + (t + w);
    AllSpaceConcat(t, w);
    if a == [] {
      NormalizeOfSpace(s);
      NormalizeOfSpace(s + w);
    } else {
      NormalizeSkipsSpaceAfter(a, t);
      NormalizeSkipsSpaceAfter(a, t + w);
    }
  }

  /** Trimming around a single inner space trims the two sides on their own. */
  lemma TrimAroundSpace(x: string, y: string)
    requires x != [] && !IsSpace(x[|x| - 1])
    requires y != [] && !IsSpace(y[0])
    ensures Trim(x + " " + y) == Trim(x) + " " + Trim(y)
  {
    var x' := TrimStart(x);
    assert x + " " + y == x + (" " + y);
    TrimStartConcat(x, " " + y);
    assert x' + (" " + y) == (x' + " ") + y;
    TrimEndConcat(x' + " ", y);
    TrimOfVisibleLast(x);
    TrimOfVisibleFirst(y);
  }

  /** A string ending in a visible character loses only its leading white space. */
  lemma TrimOfVisibleLast(x: string)
    requires x != [] && !IsSpace(x[|x| - 1])
    ensures Trim(x) == TrimStart(x)
  {
    TrimStartKeepsLast(x);
  }

  /** A string starting with a visible character loses only its trailing white space. */
  lemma TrimOfVisibleFirst(y: string)
    requires y != [] && !IsSpace(y[0])
    ensures Trim(y) == TrimEnd(y)
  {
  }

  /**
   * `replace(/\s+/g, ' ').trim()` turns a run of white space between two
   * visible characters into exactly one space: the words on either side
   * are normalised on their own and joined by a single space.
   */
  lemma NormalizeSeparatesWords(a: string, w: string, b: string)
    requires a != [] && !IsSpace(a[|a| - 1])
    requires w != [] && AllSpace(w)
    requires b != [] && !IsSpace(b[0])
    ensures Normalize(a + w + b) == Normalize(a) + " " + Normalize(b)
  {
    SqueezeWords(a, w, b);
    SqueezeKeepsLast(a);
    assert Squeeze(b)[0] == b[0];
    TrimAroundSpace(Squeeze(a), Squeeze(b));
  }

  // ---------- JavaScript truthiness ----------

  /** A string is truthy unless it is empty. */
  predicate NonEmpty(s: string) {
    s != ""
  }

  /** An optional string (`null` when absent) is truthy when present and non-empty. */
  predicate Truthy(o: Option<string>) {
    o.Some? && o.value != ""
  }

  /** `a || b`. */
  function Or(a: Option<string>, b: Option<string>): (r: Option<string>)
    ensures Truthy(a) ==> r == a
    ensures !Truthy(a) ==> r == b
  {
    if Truthy(a) then a else b
  }

  /** `a || null`: the empty string becomes `null`. */
  function OrNull(a: Option<string>): (r: Option<string>)
    ensures r.Some? <==> Truthy(a)
    ensures r.Some? ==> r == a
  {
    Or(a, None)
  }

  /** The normalised text of each of the matched elements, in order: `els.map(textContent)`. */
  function Texts(els: seq<string>): (r: seq<string>)
    ensures |r| == |els|
    ensures forall i :: 0 <= i < |r| ==> r[i] == Normalize(els[i])
  {
    seq(|els|, i requires 0 <= i < |els| => Normalize(els[i]))
  }

  /** `els.map(textContent).filter(Boolean)`: the non-empty normalised texts. */
  function PresentTexts(els: seq<string>): (r: seq<string>)
    ensures forall i :: 0 <= i < |r| ==> r[i] != "" && IsNormal(r[i])
  {
    FilterIsSubseqMembers(Texts(els), NonEmpty);
    Filter(Texts(els), NonEmpty)
  }

  /**
   * Nothing present is lost: the non-empty texts keep the elements' order,
   * and each non-empty text appears exactly as often as among all the
   * elements' texts.
   */
  lemma PresentTextsComplete(els: seq<string>)
    ensures IsSubseq(PresentTexts(els), Texts(els))
    ensures forall t :: multiset(PresentTexts(els))[t] == if t != "" then multiset(Texts(els))[t] else 0
  {
    FilterIsSubseq(Texts(els), NonEmpty);
    FilterMultiset(Texts(els), NonEmpty);
  }

  // ---------- split and join ----------

  /** `s.split(sep)` for a one-character separator. */
  function Split(s: string, sep: char): (r: seq<string>)
    ensures |r| >= 1
    decreases |s|
  {
    if s == [] then [""]
    else
      var rest := Split(s[1..], sep);
      if s[0] == sep then [""] + rest
      else [[s[0]] + rest[0]] + rest[1..]
  }

  /** `parts.join(sep)`. */
  function Join(parts: seq<string>, sep: string): string {
    if |parts| == 0 then ""
    else if |parts| == 1 then parts[0]
    else parts[0] + sep + Join(parts[1..], sep)
  }

  /** `map(f)` over a sequence of strings. */
  function MapAll(parts: seq<string>, f: string -> string): (r: seq<string>)
    ensures |r| == |parts|
    ensures forall i :: 0 <= i < |parts| ==> r[i] == f(parts[i])
  {
    seq(|parts|, i requires 0 <= i < |parts| => f(parts[i]))
  }

  lemma MapAllCons(x: string, xs: seq<string>, f: string -> string)
    ensures MapAll([x] + xs, f) == [f(x)] + MapAll(xs, f)
  {
    var ys := [x] + xs;
    assert forall i :: 0 < i < |ys| ==> ys[i] == xs[i - 1];
  }

  /** `trim()` applied to every element. */
  function TrimAll(parts: seq<string>): (r: seq<string>)
    ensures |r| == |parts|
  {
    MapAll(parts, Trim)
  }

  /** Trimming every piece trims the first piece and then the rest. */
  lemma TrimAllTail(parts: seq<string>)
    requires |parts| >= 1
    ensures TrimAll(parts)[0] == Trim(parts[0]) && TrimAll(parts)[1..] == TrimAll(parts[1..])
  {
    assert parts == [parts[0]] + parts[1..];
    MapAllCons(parts[0], parts[1..], Trim);
    var t := MapAll(parts[1..], Trim);
    assert ([Trim(parts[0])] + t)[1..] == t;
  }

  /** Trimming cannot bring in a character the input lacks. */
  lemma TrimKeepsOut(s: string, c: char)
    requires c !in s
    ensures c !in Trim(s)
  {
    TrimIsInner(s);
  }

  /** Trimming keeps a piece trimmed and free of the separator. */
  lemma TrimAllParts(parts: seq<string>, sep: char)
    requires forall i :: 0 <= i < |parts| ==> sep !in parts[i]
    ensures forall i :: 0 <= i < |parts| ==> IsTrimmed(TrimAll(parts)[i]) && sep !in TrimAll(parts)[i]
  {
    forall i | 0 <= i < |parts|
      ensures IsTrimmed(TrimAll(parts)[i]) && sep !in TrimAll(parts)[i]
    {
      TrimKeepsOut(parts[i], sep);
    }
  }

  /** `trim()` returns a contiguous piece of its input. */
  lemma TrimIsInner(s: string)
    ensures exists i, j :: 0 <= i <= j <= |s| && Trim(s) == s[i..j]
  {
    var a := TrimStart(s);
    var r := TrimEnd(a);
    var i := |s| - |a|;
    assert Trim(s) == r;
    assert a == s[i..];
    assert r == a[..|r|] == s[i..i + |r|];
  }

  /** `s.split(sep).map((x) => x.trim())`. */
  function Segments(s: string, sep: char): (r: seq<string>)
    ensures |r| >= 1
  {
    TrimAll(Split(s, sep))
  }

  /** The first piece of a split is a prefix of the string. */
  lemma {:induction false} SplitFirstIsPrefix(s: string, sep: char)
    ensures Split(s, sep)[0] <= s
    decreases |s|
  {
    if s != [] && s[0] != sep {
      SplitFirstIsPrefix(s[1..], sep);
      assert s == [s[0]] + s[1..];
    }
  }

  /** The first trimmed segment of a normal string is normal. */
  lemma FirstSegmentIsNormal(s: string, sep: char)
    ensures IsNormal(s) ==> IsNormal(Segments(s, sep)[0])
  {
    if IsNormal(s) {
      var p := Split(s, sep)[0];
      SplitFirstIsPrefix(s, sep);
      assert p == s[..|p|];
      SqueezedSlice(s, 0, |p|);
      TrimIsInner(p);
      var i, j :| 0 <= i <= j <= |p| && Trim(p) == p[i..j];
      SqueezedSlice(p, i, j);
    }
  }

  /** Joining the pieces of a split with the separator gives back the string, and no piece holds the separator. */
  lemma SplitThenJoin(s: string, sep: char)
    ensures Join(Split(s, sep), [sep]) == s
    ensures forall i :: 0 <= i < |Split(s, sep)| ==> sep !in Split(s, sep)[i]
  {
    SplitJoin(s, sep);
    forall i | 0 <= i < |Split(s, sep)|
      ensures sep !in Split(s, sep)[i]
    {
      SplitPieceWithoutSep(s, sep, i);
    }
  }

  lemma {:induction false} SplitJoin(s: string, sep: char)
    ensures Join(Split(s, sep), [sep]) == s
    decreases |s|
  {
    if s != [] {
      SplitJoin(s[1..], sep);
      var rest := Split(s[1..], sep);
      if s[0] != sep {
        var r := Split(s, sep);
        assert r[0] == [s[0]] + rest[0];
        if |rest| > 1 {
          assert r[1..] == rest[1..];
        } else {
          assert r == [[s[0]] + rest[0]];
        }
        assert s == [s[0]] + s[1..];
      }
    }
  }

  lemma {:induction false} SplitPieceWithoutSep(s: string, sep: char, i: nat)
    requires i < |Split(s, sep)|
    ensures sep !in Split(s, sep)[i]
    decreases |s|
  {
    if s != [] {
      var rest := Split(s[1..], sep);
      if s[0] == sep {
        if i > 0 {
          SplitPieceWithoutSep(s[1..], sep, i - 1);
        }
      } else if i == 0 {
        SplitPieceWithoutSep(s[1..], sep, 0);
        assert Split(s, sep)[0] == [s[0]] + rest[0];
      } else {
        SplitPieceWithoutSep(s[1..], sep, i);
        assert Split(s, sep)[i] == rest[i];
      }
    }
  }

  lemma {:induction false} SplitWithoutSep(s: string, sep: char)
    requires sep !in s
    ensures Split(s, sep) == [s]
    decreases |s|
  {
    if s != [] {
      assert sep !in s[1..];
      SplitWithoutSep(s[1..], sep);
      assert s == [s[0]] + s[1..];
    }
  }

  lemma {:induction false} SplitAfter(a: string, b: string, sep: char)
    requires sep !in a
    ensures Split(a + [sep] + b, sep) == [a] + Split(b, sep)
    decreases |a|
  {
    var s := a + [sep] + b;
    if a == [] {
      assert s == [sep] + b;
      assert s[1..] == b;
    } else {
      assert s[1..] == a[1..] + [sep] + b;
      SplitAfter(a[1..], b, sep);
      var rest := Split(s[1..], sep);
      assert rest[0] == a[1..] && rest[1..] == Split(b, sep);
      assert a == [a[0]] + a[1..];
    }
  }

  /** Splitting what a join of separator-free pieces built gives back the pieces. */
  lemma {:induction false} JoinThenSplit(parts: seq<string>, sep: char)
    requires |parts| >= 1
    requires forall i :: 0 <= i < |parts| ==> sep !in parts[i]
    ensures Split(Join(parts, [sep]), sep) == parts
    decreases |parts|
  {
    if |parts| == 1 {
      SplitWithoutSep(parts[0], sep);
    } else {
      JoinThenSplit(parts[1..], sep);
      SplitAfter(parts[0], Join(parts[1..], [sep]), sep);
      assert parts == [parts[0]] + parts[1..];
    }
  }

  lemma JoinHoldsSep(parts: seq<string>, sep: string)
    requires |parts| >= 2
    ensures OccursAt(Join(parts, sep), sep, |parts[0]|)
  {
    var s := Join(parts, sep);
    assert s == parts[0] + sep + Join(parts[1..], sep);
    assert s[|parts[0]|..|parts[0]| + |sep|] == sep;
  }

  // ---------- substrings ----------

  /** `t` occurs in `s` starting at index `i`. */
  predicate OccursAt(s: string, t: string, i: nat) {
    i + |t| <= |s| && s[i..i + |t|] == t
  }

  /** `s.includes(t)`. */
  predicate Contains(s: string, t: string) {
    exists i | 0 <= i <= |s| - |t| :: OccursAt(s, t, i)
  }

  /** The first index at or after `i` where `t` occurs in `s`. */
  function FindFrom(s: string, t: string, i: nat): (r: Option<nat>)
    requires i <= |s|
    ensures r.Some? ==> i <= r.value && OccursAt(s, t, r.value)
    ensures r.Some? ==> forall j :: i <= j < r.value ==> !OccursAt(s, t, j)
    ensures r.None? ==> forall j :: i <= j ==> !OccursAt(s, t, j)
    decreases |s| - i
  {
    if i + |t| > |s| then None
    else if OccursAt(s, t, i) then Some(i)
    else FindFrom(s, t, i + 1)
  }

  /** `s.split(t)[0]`: the part of `s` before the first occurrence of `t`, or all of `s`. */
  function BeforeFirst(s: string, t: string): (r: string)
    ensures r <= s
    ensures r == s || OccursAt(s, t, |r|)
    ensures forall j :: OccursAt(s, t, j) ==> |r| <= j
  {
    match FindFrom(s, t, 0)
    case None => s
    case Some(k) => s[..k]
  }

  /** Without an occurrence, `split(t)[0]` is the whole string. */
  lemma BeforeFirstWithout(s: string, t: string)
    requires !Contains(s, t)
    ensures BeforeFirst(s, t) == s
  {
  }

  lemma ContainsSlice(s: string, t: string, i: nat, j: nat)
    requires i <= j <= |s| && Contains(s[i..j], t)
    ensures Contains(s, t)
  {
    var k :| 0 <= k <= |s[i..j]| - |t| && OccursAt(s[i..j], t, k);
    assert k + |t| <= j - i;
    forall m | 0 <= m < |t|
      ensures s[i + k..i + k + |t|][m] == t[m]
    {
      assert t[m] == s[i..j][k..k + |t|][m] == s[i..j][k + m];
    }
    assert s[i + k..i + k + |t|] == t;
    assert OccursAt(s, t, i + k);
  }

  // ---------- digits ----------

  predicate IsDigit(c: char) {
    '0' <= c <= '9'
  }

  predicate AllDigits(s: string) {
    forall i :: 0 <= i < |s| ==> IsDigit(s[i])
  }

  predicate NoDigits(s: string) {
    forall i :: 0 <= i < |s| ==> !IsDigit(s[i])
  }

  function DigitChar(d: nat): (c: char)
    requires d < 10
    ensures IsDigit(c)
  {
    ('0' as int + d) as char
  }

  /** `s.replace(/[^0-9]/g, '')`. */
  function DigitsOf(s: string): (r: string)
    ensures AllDigits(r)
  {
    if s == [] then [] else (if IsDigit(s[0]) then [s[0]] else []) + DigitsOf(s[1..])
  }

  /** The number a string of decimal digits denotes, leading zeros allowed (`Number`, `parseInt(_, 10)`). */
  function DecimalValue(ds: string): nat
    requires AllDigits(ds)
  {
    if ds == [] then 0 else 10 * DecimalValue(ds[..|ds| - 1]) + ((ds[|ds| - 1] as int) - ('0' as int))
  }

  /** The decimal numeral of `n`, without leading zeros. */
  function Decimal(n: nat): (r: string)
    ensures r != [] && AllDigits(r)
  {
    if n < 10 then [DigitChar(n)] else Decimal(n / 10) + [DigitChar(n % 10)]
  }

  /** Reading back the numeral of `n` gives `n`. */
  lemma {:induction false} DecimalRoundTrip(n: nat)
    ensures DecimalValue(Decimal(n)) == n
  {
    if n >= 10 {
      DecimalRoundTrip(n / 10);
      var r := Decimal(n);
      assert r[..|r| - 1] == Decimal(n / 10);
    }
  }

  lemma {:induction false} DigitsOfConcat(a: string, b: string)
    ensures DigitsOf(a + b) == DigitsOf(a) + DigitsOf(b)
    decreases |a|
  {
    if a == [] {
      assert a + b == b;
    } else {
      var c := a + b;
      var h := if IsDigit(a[0]) then [a[0]] else [];
      assert c[0] == a[0] && c[1..] == a[1..] + b;
      DigitsOfConcat(a[1..], b);
      assert DigitsOf(c) == h + (DigitsOf(a[1..]) + DigitsOf(b));
      assert DigitsOf(a) == h + DigitsOf(a[1..]);
    }
  }

  lemma {:induction false} DigitsOfDigits(s: string)
    requires AllDigits(s)
    ensures DigitsOf(s) == s
    decreases |s|
  {
    if s != [] { DigitsOfDigits(s[1..]); }
  }

  lemma {:induction false} DigitsOfNoDigits(s: string)
    requires NoDigits(s)
    ensures DigitsOf(s) == []
    decreases |s|
  {
    if s != [] { DigitsOfNoDigits(s[1..]); }
  }

  /** The digits of `s` are empty exactly when `s` has no digit. */
  lemma {:induction false} DigitsOfEmpty(s: string)
    ensures DigitsOf(s) == [] <==> NoDigits(s)
    decreases |s|
  {
    if s != [] {
      DigitsOfEmpty(s[1..]);
      assert NoDigits(s) <==> !IsDigit(s[0]) && NoDigits(s[1..]) by {
        assert forall i :: 0 < i < |s| ==> s[i] == s[1..][i - 1];
      }
    }
  }

  /** The longest prefix of `s` made of digits. */
  function LeadingDigits(s: string): (r: string)
    ensures r <= s && AllDigits(r)
    ensures |r| < |s| ==> !IsDigit(s[|r|])
  {
    if s != [] && IsDigit(s[0]) then [s[0]] + LeadingDigits(s[1..]) else []
  }

  /** `s.match(/\d+/)?.[0]`: the first maximal run of digits. */
  function FirstDigitRun(s: string): (r: Option<string>)
    ensures r.None? <==> NoDigits(s)
    ensures r.Some? ==> r.value != [] && AllDigits(r.value)
  {
    if s == [] then None
    else if IsDigit(s[0]) then Some(LeadingDigits(s))
    else FirstDigitRun(s[1..])
  }

  lemma {:induction false} LeadingDigitsStop(d: string, rest: string)
    requires AllDigits(d) && (rest == [] || !IsDigit(rest[0]))
    ensures LeadingDigits(d + rest) == d
    decreases |d|
  {
    if d == [] {
      assert d + rest == rest;
    } else {
      assert (d + rest)[1..] == d[1..] + rest;
      LeadingDigitsStop(d[1..], rest);
    }
  }

  /** In `pre + d + rest`, with no digit in `pre` and none right after `d`, the first digit run is `d`. */
  lemma {:induction false} FirstDigitRunAfter(pre: string, d: string, rest: string)
    requires NoDigits(pre) && d != [] && AllDigits(d) && (rest == [] || !IsDigit(rest[0]))
    ensures FirstDigitRun(pre + d + rest) == Some(d)
    decreases |pre|
  {
    if pre == [] {
      assert pre + d + rest == d + rest;
      LeadingDigitsStop(d, rest);
    } else {
      assert (pre + d + rest)[1..] == pre[1..] + d + rest;
      FirstDigitRunAfter(pre[1..], d, rest);
    }
  }
}
