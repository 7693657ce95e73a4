/**
 gorilla/mux's route templates (regexp.go): finding the first-level braces, and cutting the
 template up along them. Regular expressions are not part of this model: `compiles` stands for
 what regexp.Compile accepts.
 */
module Template {
  import opened Seqs

  function Step(c: char): int { if c == '{' then 1 else if c == '}' then -1 else 0 }

  /** Opening minus closing braces in `s`. */
  function Depth(s: string): int {
    if s == [] then 0 else Depth(s[..|s| - 1]) + Step(s[|s| - 1])
  }

  /** Every closing brace has its opening brace before it, and every opening brace is closed. */
  predicate Balanced(s: string) {
    Depth(s) == 0 && forall j :: 0 <= j <= |s| ==> Depth(s[..j]) >= 0
  }

  predicate NoBrace(s: string, from: nat, to: nat)
    requires to <= |s|
  {
    forall j :: from <= j < to ==> s[j] != '{' && s[j] != '}'
  }

  /** The first-level piece from `a` to just before `b`: from the brace that leaves level 0 to the
      one that comes back to it, and not before. */
  predicate Piece(s: string, a: nat, b: nat) {
    && a + 2 <= b <= |s| && s[a] == '{' && s[b - 1] == '}'
    && Depth(s[..a]) == 0 && Depth(s[..b]) == 0
    && forall j :: a < j < b ==> Depth(s[..j]) >= 1
  }

  function Lo(idxs: seq<nat>, k: nat): nat
    requires 2 * k + 1 < |idxs|
  {
    idxs[2 * k]
  }

  function Hi(idxs: seq<nat>, k: nat): nat
    requires 2 * k + 1 < |idxs|
  {
    idxs[2 * k + 1]
  }

  /** Where the text before the k-th piece starts. */
  function Prev(idxs: seq<nat>, k: nat): nat
    requires 2 * k <= |idxs|
  {
    if k == 0 then 0 else idxs[2 * k - 1]
  }

  /** `idxs` lists the pieces of `s` that end by `to`: in order, disjoint, with nothing but
      brace-free text between them and up to `to`. */
  ghost predicate Marks(s: string, idxs: seq<nat>, to: nat) {
    && |idxs| % 2 == 0 && to <= |s|
    && (forall k: nat :: 2 * k + 1 < |idxs| ==>
          Piece(s, Lo(idxs, k), Hi(idxs, k)) && Prev(idxs, k) <= Lo(idxs, k) && Hi(idxs, k) <= to
          && NoBrace(s, Prev(idxs, k), Lo(idxs, k)))
    && Prev(idxs, |idxs| / 2) <= to
    && NoBrace(s, Prev(idxs, |idxs| / 2), to)
  }

  datatype Found = Indices(idxs: seq<nat>) | Unbalanced

  lemma DepthNext(s: string, i: nat)
    requires i < |s|
    ensures Depth(s[..i + 1]) == Depth(s[..i]) + Step(s[i])
  {
    assert s[..i + 1][..i] == s[..i];
  }

  lemma MarksExtend(s: string, idxs: seq<nat>, to: nat, a: nat, b: nat)
    requires Marks(s, idxs, to) && to <= a && b <= |s| && Piece(s, a, b) && NoBrace(s, to, a)
    ensures Marks(s, idxs + [a, b], b)
  {
    var more := idxs + [a, b];
    var n := |idxs| / 2;
    forall k: nat | 2 * k + 1 < |more|
      ensures Piece(s, Lo(more, k), Hi(more, k)) && Prev(more, k) <= Lo(more, k) && Hi(more, k) <= b
              && NoBrace(s, Prev(more, k), Lo(more, k))
    {
      if k < n {
        assert Lo(more, k) == Lo(idxs, k) && Hi(more, k) == Hi(idxs, k) && Prev(more, k) == Prev(idxs, k);
      } else {
        assert k == n && Lo(more, k) == a && Hi(more, k) == b && Prev(more, k) == Prev(idxs, n);
      }
    }
  }

  /** `braceIndices` fails exactly on unbalanced braces, and else returns the marks of the whole
      template. */
  method BraceIndices(s: string) returns (r: Found)
    ensures r.Indices? <==> Balanced(s)
    ensures r.Indices? ==> Marks(s, r.idxs, |s|)
  {
    var level, idx: nat, idxs: seq<nat> := 0, 0, [];
    var i := 0;
    ghost var to := 0;  // end of the text known to lie outside pieces
    while i < |s|
      invariant i <= |s| && level == Depth(s[..i]) >= 0
      invariant forall j :: 0 <= j <= i ==> Depth(s[..j]) >= 0
      invariant Marks(s, idxs, to) && to <= i
      invariant level == 0 ==> to == i
      invariant level > 0 ==> to == idx < i && s[idx] == '{' && Depth(s[..idx]) == 0
      invariant level > 0 ==> forall j :: idx < j <= i ==> Depth(s[..j]) >= 1
    {
      DepthNext(s, i);
      if s[i] == '{' {
        level := level + 1;
        if level == 1 { idx := i; }
      } else if s[i] == '}' {
        level := level - 1;
        if level == 0 {
          MarksExtend(s, idxs, to, idx, i + 1);
          idxs := idxs + [idx, i + 1];
          to := i + 1;
        } else if level < 0 {
          return Unbalanced;
        }
      } else if level == 0 {
        to := i + 1;
      }
      i := i + 1;
    }
    assert s[..i] == s;
    if level != 0 { return Unbalanced; }
    return Indices(idxs);
  }

  // ---------------------------------------------------------------- The marks say it all

  /** Outside the pieces listed so far the next piece can start at one place only. */
  lemma FirstPieceUnique(s: string, from: nat, a: nat, b: nat, a': nat, b': nat)
    requires Piece(s, a, b) && Piece(s, a', b') && from <= a && from <= a'
    requires NoBrace(s, from, a) && NoBrace(s, from, a')
    ensures a == a' && b == b'
  {
  }

  lemma {:induction false} MarksAgree(s: string, idxs: seq<nat>, idxs': seq<nat>, k: nat)
    requires Marks(s, idxs, |s|) && Marks(s, idxs', |s|) && 2 * k <= |idxs| && 2 * k <= |idxs'|
    ensures idxs[..2 * k] == idxs'[..2 * k]
  {
    if k > 0 {
      MarksAgree(s, idxs, idxs', k - 1);
      var p := 2 * (k - 1);
      assert Prev(idxs, k - 1) == Prev(idxs', k - 1) by {
        if k > 1 { assert idxs[..p][p - 1] == idxs'[..p][p - 1]; }
      }
      FirstPieceUnique(s, Prev(idxs, k - 1), Lo(idxs, k - 1), Hi(idxs, k - 1), Lo(idxs', k - 1), Hi(idxs', k - 1));
      assert idxs[..2 * k] == idxs[..p] + [Lo(idxs, k - 1), Hi(idxs, k - 1)];
      assert idxs'[..2 * k] == idxs'[..p] + [Lo(idxs', k - 1), Hi(idxs', k - 1)];
    }
  }

  lemma PrevInRange(s: string, idxs: seq<nat>, to: nat, k: nat)
    requires Marks(s, idxs, to) && 2 * k <= |idxs|
    ensures 0 <= Prev(idxs, k) <= to
  {
    if k > 0 { assert Prev(idxs, k) == Hi(idxs, k - 1); }
  }

  /** Where another piece follows, the text is not free of braces. */
  lemma AnotherPiece(s: string, idxs: seq<nat>, k: nat)
    requires Marks(s, idxs, |s|) && 2 * k + 1 < |idxs|
    ensures 0 <= Prev(idxs, k) && !NoBrace(s, Prev(idxs, k), |s|)
  {
    PrevInRange(s, idxs, |s|, k);
    assert s[Lo(idxs, k)] == '{';
  }

  /** A template has one list of marks: the indices are increasing, disjoint and maximal, and no
      other list is. */
  lemma MarksUnique(s: string, idxs: seq<nat>, idxs': seq<nat>)
    requires Marks(s, idxs, |s|) && Marks(s, idxs', |s|)
    ensures idxs == idxs'
  {
    var n := if |idxs| <= |idxs'| then |idxs| / 2 else |idxs'| / 2;
    MarksAgree(s, idxs, idxs', n);
    assert Prev(idxs, n) == Prev(idxs', n) by {
      if n > 0 { assert idxs[..2 * n][2 * n - 1] == idxs'[..2 * n][2 * n - 1]; }
    }
    if |idxs| < |idxs'| { AnotherPiece(s, idxs', n); }
    if |idxs'| < |idxs| { AnotherPiece(s, idxs, n); }
    assert idxs[..2 * n] == idxs && idxs'[..2 * n] == idxs';
  }

  /** Inside its braces each piece is balanced. */
  lemma PieceBalancedInside(s: string, a: nat, b: nat)
    requires Piece(s, a, b)
    ensures Balanced(s[a + 1..b - 1])
  {
    var t := s[a + 1..b - 1];
    DepthNext(s, a);
    forall j | 0 <= j <= |t| ensures Depth(t[..j]) == Depth(s[..a + 1 + j]) - 1 {
      DepthInside(s, a + 1, j);
      assert t[..j] == s[a + 1..a + 1 + j];
    }
    assert t[..|t|] == t;
    DepthNext(s, b - 1);
  }

  lemma {:induction false} DepthInside(s: string, a: nat, j: nat)
    requires a + j <= |s|
    ensures Depth(s[a..a + j]) == Depth(s[..a + j]) - Depth(s[..a])
  {
    if j == 0 {
      assert s[a..a] == [];
    } else {
      DepthInside(s, a, j - 1);
      DepthNext(s, a + j - 1);
      assert s[a..a + j][..j - 1] == s[a..a + j - 1];
    }
  }

  // ---------------------------------------------------------------- Cutting the template up

  /** strings.SplitN(inner, ":", 2) with the default pattern where there is no colon. */
  function Name(inner: string): string { inner[..IndexOf(inner, ':')] }

  function Pattern(inner: string, default: string): string {
    var i := IndexOf(inner, ':');
    if i == |inner| then default else inner[i + 1..]
  }

  /** A piece is its name, a colon and its pattern, the name up to the first colon; or it has no colon,
      and then it is its name and the pattern is the default. */
  lemma NameAndPattern(inner: string, default: string)
    ensures ':' !in Name(inner)
    ensures if ':' in inner then inner == Name(inner) + ":" + Pattern(inner, default)
            else inner == Name(inner) && Pattern(inner, default) == default
  {
    IndexOfIs(inner, ':');
    var i := IndexOf(inner, ':');
    if i < |inner| {
      assert inner == inner[..i] + [inner[i]] + inner[i + 1..];
    } else {
      assert inner[..i] == inner;
    }
  }

  datatype Variable = Variable(name: string, patt: string)

  /** `raws` are the texts around the pieces, one more than `vars`; `reverse` has "%s" for each. */
  datatype Route = Route(raws: seq<string>, vars: seq<Variable>, reverse: string)

  datatype Built = Built(route: Route) | BadBraces | Missing | BadPattern

  datatype Check = Good(v: Variable) | Empty | NotCompiled

  function Weave(raws: seq<string>, pieces: seq<string>): string
    requires |raws| == |pieces| + 1
  {
    if pieces == [] then raws[0] else raws[0] + pieces[0] + Weave(raws[1..], pieces[1..])
  }

  lemma {:induction false} WeaveSnoc(raws: seq<string>, pieces: seq<string>, piece: string, raw: string)
    requires |raws| == |pieces| + 1
    ensures Weave(raws + [raw], pieces + [piece]) == Weave(raws, pieces) + piece + raw
  {
    if pieces == [] {
      assert (raws + [raw])[1..] == [raw] && (pieces + [piece])[1..] == [];
    } else {
      assert (raws + [raw])[1..] == raws[1..] + [raw] && (pieces + [piece])[1..] == pieces[1..] + [piece];
      WeaveSnoc(raws[1..], pieces[1..], piece, raw);
    }
  }

  /** Text without braces. */
  predicate Raw(s: string) { '{' !in s && '}' !in s }

  /** The text of the k-th piece without its braces. */
  function Inner(s: string, idxs: seq<nat>, k: nat): string
    requires Marks(s, idxs, |s|) && 2 * k + 1 < |idxs|
  {
    s[Lo(idxs, k) + 1..Hi(idxs, k) - 1]
  }

  function Whole(s: string, idxs: seq<nat>, k: nat): string
    requires Marks(s, idxs, |s|) && 2 * k + 1 < |idxs|
  {
    s[Lo(idxs, k)..Hi(idxs, k)]
  }

  /** The variable of the k-th piece: its name and pattern are not empty, and the pattern compiles. */
  predicate Accepted(s: string, idxs: seq<nat>, k: nat, default: string, compiles: string -> bool, v: Variable)
    requires Marks(s, idxs, |s|) && 2 * k + 1 < |idxs|
  {
    && v == Variable(Name(Inner(s, idxs, k)), Pattern(Inner(s, idxs, k), default))
    && v.name != "" && v.patt != "" && compiles("^" + v.patt + "$")
  }

  /** What an accepted variable is, in terms of the text in its braces. */
  lemma AcceptedIs(s: string, idxs: seq<nat>, k: nat, default: string, compiles: string -> bool, v: Variable)
    requires Marks(s, idxs, |s|) && 2 * k + 1 < |idxs| && Accepted(s, idxs, k, default, compiles, v)
    ensures var inner := Inner(s, idxs, k);
      && v.name != "" && ':' !in v.name
      && if ':' in inner then inner == v.name + ":" + v.patt else inner == v.name && v.patt == default
  {
    NameAndPattern(Inner(s, idxs, k), default);
  }

  /** The k-th piece has an empty name or pattern, or a pattern that does not compile. */
  predicate Refused(s: string, idxs: seq<nat>, k: nat, default: string, compiles: string -> bool)
    requires Marks(s, idxs, |s|) && 2 * k + 1 < |idxs|
  {
    Nameless(s, idxs, k, default) || !compiles("^" + Pattern(Inner(s, idxs, k), default) + "$")
  }

  predicate Nameless(s: string, idxs: seq<nat>, k: nat, default: string)
    requires Marks(s, idxs, |s|) && 2 * k + 1 < |idxs|
  {
    Name(Inner(s, idxs, k)) == "" || Pattern(Inner(s, idxs, k), default) == ""
  }

  /** The k-th piece is the first to be refused; it is refused for an empty name or pattern, or
      else for its pattern. */
  ghost predicate FirstRefused(s: string, idxs: seq<nat>, k: nat, default: string, compiles: string -> bool,
                               nameless: bool)
    requires Marks(s, idxs, |s|)
  {
    && 2 * k + 1 < |idxs| && Refused(s, idxs, k, default, compiles)
    && nameless == Nameless(s, idxs, k, default)
    && forall j: nat :: j < k ==> !Refused(s, idxs, j, default, compiles)
  }

  function Repeat(n: nat): seq<string> { seq(n, _ => "%s") }

  lemma TrimKeepsPiece(s: string, a: nat, b: nat)
    requires Piece(s, a, b) && b < |s|
    ensures Piece(s[..|s| - 1], a, b)
  {
    var t := s[..|s| - 1];
    forall j | 0 <= j <= b ensures t[..j] == s[..j] {}
  }

  /** The strict-slash trim takes a final slash off the template. That slash is never inside a
      piece, so every index stays within what is left. */
  lemma TrimKeepsMarks(s: string, idxs: seq<nat>)
    requires Marks(s, idxs, |s|) && s != [] && s[|s| - 1] == '/'
    ensures Marks(s[..|s| - 1], idxs, |s| - 1)
  {
    var t, n := s[..|s| - 1], |idxs| / 2;
    forall k: nat | 2 * k + 1 < |idxs|
      ensures Piece(t, Lo(idxs, k), Hi(idxs, k)) && Prev(idxs, k) <= Lo(idxs, k) && Hi(idxs, k) <= |t|
              && NoBrace(t, Prev(idxs, k), Lo(idxs, k))
    {
      assert s[Hi(idxs, k) - 1] == '}';
      PrevInRange(s, idxs, |s|, k);
      TrimKeepsPiece(s, Lo(idxs, k), Hi(idxs, k));
    }
    if n > 0 { assert s[Hi(idxs, n - 1) - 1] == '}' && Hi(idxs, n - 1) == Prev(idxs, n); }
  }

  /** `pieces` are the pieces of `s`, braces included. */
  ghost predicate ArePieces(s: string, idxs: seq<nat>, pieces: seq<string>)
    requires Marks(s, idxs, |s|)
  {
    2 * |pieces| <= |idxs| && forall k :: 0 <= k < |pieces| ==> pieces[k] == Whole(s, idxs, k)
  }

  /** The variables of the pieces, in order. */
  ghost predicate AreVariables(s: string, idxs: seq<nat>, vars: seq<Variable>, default: string,
                               compiles: string -> bool)
    requires Marks(s, idxs, |s|)
  {
    2 * |vars| <= |idxs| && forall k :: 0 <= k < |vars| ==> Accepted(s, idxs, k, default, compiles, vars[k])
  }

  /** `s` up to `end`, taken apart into brace-free texts and pieces, and the reverse template so far. */
  ghost predicate Woven(s: string, end: nat, raws: seq<string>, pieces: seq<string>, reverse: string) {
    && |raws| == |pieces| && end <= |s|
    && s[..end] == Weave(raws + [""], pieces)
    && reverse == Weave(raws + [""], Repeat(|raws|))
    && forall i :: 0 <= i < |raws| ==> Raw(raws[i])
  }

  lemma RawBetween(s: string, from: nat, to: nat)
    requires from <= to <= |s| && NoBrace(s, from, to)
    ensures Raw(s[from..to])
  {
  }

  /** One more piece woven in. */
  lemma Advance(s: string, start: nat, lo: nat, hi: nat, raws: seq<string>, pieces: seq<string>, reverse: string)
    requires Woven(s, start, raws, pieces, reverse) && start <= lo <= hi <= |s| && NoBrace(s, start, lo)
    ensures Woven(s, hi, raws + [s[start..lo]], pieces + [s[lo..hi]], reverse + s[start..lo] + "%s")
  {
    var raw := s[start..lo];
    RawBetween(s, start, lo);
    WeaveNext(raws, pieces, raw, s[lo..hi]);
    WeaveNext(raws, Repeat(|raws|), raw, "%s");
    assert Repeat(|raws| + 1) == Repeat(|raws|) + ["%s"];
    assert s[..start] + raw + s[lo..hi] == s[..hi];
  }

  /** The text after the last piece woven in. */
  lemma LastRaw(s: string, end: nat, raws: seq<string>, pieces: seq<string>, reverse: string)
    requires Woven(s, end, raws, pieces, reverse) && NoBrace(s, end, |s|)
    ensures Raw(s[end..]) && s == Weave(raws + [s[end..]], pieces)
            && reverse + s[end..] == Weave(raws + [s[end..]], Repeat(|raws|))
    ensures forall k :: 0 <= k < |raws| + 1 ==> Raw((raws + [s[end..]])[k])
  {
    RawBetween(s, end, |s|);
    WeaveLast(raws, pieces, s[end..]);
    WeaveLast(raws, Repeat(|raws|), s[end..]);
    assert s[..end] + s[end..] == s;
  }

  lemma PieceBounds(s: string, idxs: seq<nat>, k: nat)
    requires Marks(s, idxs, |s|) && 2 * k + 1 < |idxs|
    ensures Prev(idxs, k) <= idxs[2 * k] && idxs[2 * k] + 2 <= idxs[2 * k + 1] <= |s|
    ensures NoBrace(s, Prev(idxs, k), idxs[2 * k]) && Prev(idxs, k + 1) == idxs[2 * k + 1]
    ensures Whole(s, idxs, k) == s[idxs[2 * k]..idxs[2 * k + 1]]
            && Inner(s, idxs, k) == s[idxs[2 * k] + 1..idxs[2 * k + 1] - 1]
  {
    assert Piece(s, Lo(idxs, k), Hi(idxs, k));
  }

  /** The name and pattern of one piece, as newRouteRegexp checks them. */
  method MakeVariable(s: string, idxs: seq<nat>, i: nat, ghost k: nat, default: string,
                      compiles: string -> bool) returns (r: Check)
    requires Marks(s, idxs, |s|) && i == 2 * k && i + 1 < |idxs|
    ensures if r.Good? then Accepted(s, idxs, k, default, compiles, r.v)
            else Refused(s, idxs, k, default, compiles) && r.Empty? == Nameless(s, idxs, k, default)
  {
    PieceBounds(s, idxs, k);
    var inner := s[idxs[i] + 1..idxs[i + 1] - 1];
    var name, patt := Name(inner), Pattern(inner, default);
    if name == "" || patt == "" { return Empty; }
    if !compiles("^" + patt + "$") { return NotCompiled; }
    r := Good(Variable(name, patt));
  }

  lemma OneMore(s: string, idxs: seq<nat>, pieces: seq<string>, vars: seq<Variable>, default: string,
                compiles: string -> bool, v: Variable)
    requires Marks(s, idxs, |s|) && |pieces| == |vars| && 2 * |pieces| + 1 < |idxs|
    requires ArePieces(s, idxs, pieces) && AreVariables(s, idxs, vars, default, compiles)
    requires Accepted(s, idxs, |vars|, default, compiles, v)
    ensures ArePieces(s, idxs, pieces + [Whole(s, idxs, |pieces|)])
    ensures AreVariables(s, idxs, vars + [v], default, compiles)
  {
  }

  lemma NoneBefore(s: string, idxs: seq<nat>, vars: seq<Variable>, default: string, compiles: string -> bool)
    requires Marks(s, idxs, |s|) && AreVariables(s, idxs, vars, default, compiles)
    requires 2 * |vars| + 1 < |idxs| && Refused(s, idxs, |vars|, default, compiles)
    ensures FirstRefused(s, idxs, |vars|, default, compiles, Nameless(s, idxs, |vars|, default))
  {
    forall j: nat | j < |vars| ensures !Refused(s, idxs, j, default, compiles) {
      assert Accepted(s, idxs, j, default, compiles, vars[j]);
    }
  }

  /** What the slicing loop has done up to `end`, the end of the last of `pieces`. */
  ghost predicate Progress(s: string, idxs: seq<nat>, end: nat, raws: seq<string>, pieces: seq<string>, reverse: string,
                           vars: seq<Variable>, default: string, compiles: string -> bool)
    requires Marks(s, idxs, |s|)
  {
    && |vars| == |pieces| && 2 * |pieces| <= |idxs| && end == Prev(idxs, |pieces|)
    && Woven(s, end, raws, pieces, reverse)
    && ArePieces(s, idxs, pieces) && AreVariables(s, idxs, vars, default, compiles)
  }

  lemma OnePieceFurther(s: string, idxs: seq<nat>, end: nat, raws: seq<string>, pieces: seq<string>, reverse: string,
                        vars: seq<Variable>, default: string, compiles: string -> bool, v: Variable)
    requires Marks(s, idxs, |s|) && Progress(s, idxs, end, raws, pieces, reverse, vars, default, compiles)
    requires 2 * |pieces| + 1 < |idxs| && Accepted(s, idxs, |pieces|, default, compiles, v)
    ensures var lo, hi := idxs[2 * |pieces|], idxs[2 * |pieces| + 1];
            end <= lo <= hi <= |s|
            && Progress(s, idxs, hi, raws + [s[end..lo]], pieces + [s[lo..hi]], reverse + s[end..lo] + "%s",
                        vars + [v], default, compiles)
  {
    var k := |pieces|;
    PieceBounds(s, idxs, k);
    OneMore(s, idxs, pieces, vars, default, compiles, v);
    Advance(s, end, idxs[2 * k], idxs[2 * k + 1], raws, pieces, reverse);
  }

  lemma NoneYet(s: string, idxs: seq<nat>, default: string, compiles: string -> bool)
    requires Marks(s, idxs, |s|)
    ensures Progress(s, idxs, 0, [], [], "", [], default, compiles)
  {
    assert s[..0] == "";
  }

  /** With all pieces done, what is left has no braces. */
  lemma AllCut(s: string, idxs: seq<nat>, end: nat, raws: seq<string>, pieces: seq<string>, reverse: string,
               vars: seq<Variable>, default: string, compiles: string -> bool)
    requires Marks(s, idxs, |s|) && Progress(s, idxs, end, raws, pieces, reverse, vars, default, compiles)
    requires 2 * |pieces| == |idxs|
    ensures |raws| == |pieces| && end <= |s| && Woven(s, end, raws, pieces, reverse) && NoBrace(s, end, |s|)
  {
  }

  /** The slicing loop of newRouteRegexp over the template `s`: the raw texts hold no braces, woven
      with the pieces they are the template again, and woven with "%s" they are the reverse
      template. It fails exactly when some piece has an empty name or pattern, or a pattern that
      does not compile. */
  method CutUp(s: string, idxs: seq<nat>, default: string, compiles: string -> bool)
    returns (r: Built, ghost pieces: seq<string>)
    requires Marks(s, idxs, |s|)
    ensures !r.BadBraces?
    ensures r.Built? ==>
      && |r.route.vars| == |pieces| == |idxs| / 2 && |r.route.raws| == |pieces| + 1
      && ArePieces(s, idxs, pieces) && AreVariables(s, idxs, r.route.vars, default, compiles)
      && (forall k :: 0 <= k < |r.route.raws| ==> Raw(r.route.raws[k]))
      && s == Weave(r.route.raws, pieces) && r.route.reverse == Weave(r.route.raws, Repeat(|pieces|))
    ensures !r.Built? ==> FirstRefused(s, idxs, |pieces|, default, compiles, r.Missing?)
  {
    var vars, raws, reverse, end := [], [], "", 0;
    var i := 0;
    pieces := [];
    NoneYet(s, idxs, default, compiles);
    while i < |idxs|
      invariant i == 2 * |pieces| <= |idxs| && 0 <= end <= |s|
      invariant Progress(s, idxs, end, raws, pieces, reverse, vars, default, compiles)
    {
      ghost var k := |pieces|;
      var v := MakeVariable(s, idxs, i, k, default, compiles);
      if !v.Good? {
        NoneBefore(s, idxs, vars, default, compiles);
        return if v.Empty? then Missing else BadPattern, pieces;
      }
      OnePieceFurther(s, idxs, end, raws, pieces, reverse, vars, default, compiles, v.v);
      vars := vars + [v.v];
      var raw := s[end..idxs[i]];
      reverse := reverse + raw + "%s";
      pieces := pieces + [s[idxs[i]..idxs[i + 1]]];
      raws := raws + [raw];
      end := idxs[i + 1];
      i := i + 2;
    }
    AllCut(s, idxs, end, raws, pieces, reverse, vars, default, compiles);
    LastRaw(s, end, raws, pieces, reverse);
    r := Built(Route(raws + [s[end..]], vars, reverse + s[end..]));
  }

  /** The pattern of a variable that names none: up to the next slash, or the next dot of a host,
      or the end of a query value. */
  function DefaultPattern(matchHost: bool, matchQuery: bool): string {
    if matchQuery then "[^?&]+" else if matchHost then "[^.]+" else "[^/]+"
  }

  /** Whether newRouteRegexp takes a final slash off the template. */
  predicate Trims(template: string, matchHost: bool, matchPrefix: bool, matchQuery: bool, strictSlash: bool) {
    strictSlash && !matchPrefix && !matchHost && !matchQuery && template != [] && template[|template| - 1] == '/'
  }

  lemma TrimmedText(template: string, tpl: string)
    requires tpl == template || (template != [] && template[|template| - 1] == '/' && tpl == template[..|template| - 1])
    ensures template == tpl + template[|tpl|..] && template[|tpl|..] == if tpl == template then "" else "/"
    ensures forall s: string :: s + "" == s
  {
  }

  /** newRouteRegexp, up to regular expressions: a template is refused for its braces exactly when
      they are unbalanced, for a piece exactly when one has an empty name or pattern or a pattern
      that does not compile, and is otherwise cut up along its braces, without the final slash
      where the route is strict about it. */
  method NewRoute(template: string, matchHost: bool, matchPrefix: bool, matchQuery: bool, strictSlash: bool,
                  compiles: string -> bool)
    returns (r: Built, ghost idxs: seq<nat>, tpl: string, ghost pieces: seq<string>)
    ensures r.BadBraces? <==> !Balanced(template)
    ensures strictSlash && !matchPrefix && !matchHost && !matchQuery ==>
      template == (if template != "" && template[|template| - 1] == '/' then tpl + "/" else tpl)
    ensures !strictSlash || matchPrefix || matchHost || matchQuery ==> tpl == template
    ensures !r.BadBraces? ==> Marks(template, idxs, |template|) && Marks(tpl, idxs, |tpl|)
    ensures r.Missing? || r.BadPattern? ==>
      FirstRefused(tpl, idxs, |pieces|, DefaultPattern(matchHost, matchQuery), compiles, r.Missing?)
    ensures r.Built? ==>
      && |r.route.vars| == |pieces| == |idxs| / 2 && |r.route.raws| == |pieces| + 1 && ArePieces(tpl, idxs, pieces)
      && AreVariables(tpl, idxs, r.route.vars, DefaultPattern(matchHost, matchQuery), compiles)
      && (forall k :: 0 <= k < |r.route.raws| ==> Raw(r.route.raws[k]))
      && template == Weave(r.route.raws, pieces) + template[|tpl|..]
      && r.route.reverse == Weave(r.route.raws, Repeat(|pieces|)) + template[|tpl|..]
  {
    tpl, idxs, pieces := template, [], [];
    var endSlash := Trims(template, matchHost, matchPrefix, matchQuery, strictSlash);
    if endSlash { tpl := tpl[..|tpl| - 1]; }
    var found := BraceIndices(template);
    if found.Unbalanced? { return BadBraces, [], tpl, []; }
    idxs := found.idxs;
    TrimmedText(template, tpl);
    if endSlash { TrimKeepsMarks(template, idxs); }
    r, pieces := CutUp(tpl, found.idxs, DefaultPattern(matchHost, matchQuery), compiles);
    if r.Built? && endSlash {
      r := Built(r.route.(reverse := r.route.reverse + "/"));
    }
  }

  /** Replacing the empty text at the end. */
  lemma {:induction false} WeaveLast(raws: seq<string>, pieces: seq<string>, raw: string)
    requires |raws| == |pieces|
    ensures Weave(raws + [raw], pieces) == Weave(raws + [""], pieces) + raw
  {
    if pieces == [] {
    } else {
      assert (raws + [raw])[1..] == raws[1..] + [raw] && (raws + [""])[1..] == raws[1..] + [""];
      WeaveLast(raws[1..], pieces[1..], raw);
    }
  }

  lemma WeaveNext(raws: seq<string>, pieces: seq<string>, raw: string, piece: string)
    requires |raws| == |pieces|
    ensures Weave(raws + [raw] + [""], pieces + [piece]) == Weave(raws + [""], pieces) + raw + piece
  {
    WeaveSnoc(raws + [raw], pieces, piece, "");
    WeaveLast(raws, pieces, raw);
  }
}
