/** The parsed page as the extractor and the rewriter see it: the elements in
    document order, each with its tag name, its parent's name, its attributes
    and the tokens of its `rel` attribute, plus the parsing of `srcset`
    values that both passes share. */
module Document {
  import opened Text

  /** An element. `name` is the lower-case tag name the HTML parser reports,
      `parent` the parent element's name (`""` when there is none), `attrs`
      the attribute values, and `rel` the whitespace-separated tokens of the
      `rel` attribute (`[]` when it is absent). */
  datatype Tag = Tag(name: string, parent: string, attrs: map<string, string>, rel: seq<string>)

  /** `tag.get(a)` is truthy: the attribute is present and not empty. */
  predicate HasValue(t: Tag, a: string) {
    a in t.attrs && t.attrs[a] != ""
  }

  /** `tag.get(a) or ""`. */
  function AttrOr(t: Tag, a: string): (r: string)
    ensures r == "" <==> !HasValue(t, a)
  {
    if a in t.attrs then t.attrs[a] else ""
  }

  /** `[r.lower() for r in rels]`. */
  function LowerAll(ss: seq<string>): (r: seq<string>)
    ensures |r| == |ss| && forall i :: 0 <= i < |ss| ==> r[i] == Lower(ss[i])
  {
    if ss == [] then [] else [Lower(ss[0])] + LowerAll(ss[1..])
  }

  // ------------------------------------------------------------------ srcset

  /** A stripped, non-empty `srcset` candidate ("url" or "url descriptor"). */
  predicate IsCandidate(c: string) {
    c != [] && !IsSpace(c[0]) && !IsSpace(c[|c| - 1])
  }

  /** `[p.strip() for p in srcset.split(",") if p.strip()]`. */
  function Candidates(srcset: string): (r: seq<string>)
    ensures forall i :: 0 <= i < |r| ==> IsCandidate(r[i])
  {
    NonEmptyStrips(Split(srcset, ","))
  }

  /** The stripped pieces that are not empty, in order. */
  function NonEmptyStrips(ps: seq<string>): (r: seq<string>)
    ensures forall i :: 0 <= i < |r| ==> IsCandidate(r[i])
    ensures |r| <= |ps|
  {
    if ps == [] then []
    else
      var p := Strip(ps[0]);
      StripIsCandidate(ps[0]);
      (if p == "" then [] else [p]) + NonEmptyStrips(ps[1..])
  }

  lemma StripIsCandidate(p: string)
    ensures Strip(p) == [] || IsCandidate(Strip(p))
  {
    StripEnds(p, Whitespace);
  }

  /** What survives the filter is exactly the non-empty strips of the pieces. */
  lemma {:induction false} NonEmptyStripsMembers(ps: seq<string>, c: string)
    ensures c in NonEmptyStrips(ps) <==> c != "" && exists i | 0 <= i < |ps| :: c == Strip(ps[i])
  {
    if ps != [] {
      NonEmptyStripsMembers(ps[1..], c);
      if c != "" && c == Strip(ps[0]) {
        assert c in NonEmptyStrips(ps);
      }
      if c != "" && (exists i | 0 <= i < |ps[1..]| :: c == Strip(ps[1..][i])) {
        var i :| 0 <= i < |ps[1..]| && c == Strip(ps[1..][i]);
        assert c == Strip(ps[i + 1]);
      }
      if c != "" && (exists i | 0 <= i < |ps| :: c == Strip(ps[i])) {
        var i :| 0 <= i < |ps| && c == Strip(ps[i]);
        if i > 0 {
          assert c == Strip(ps[1..][i - 1]);
        }
      }
    }
  }

  /** A piece of a `srcset` is a candidate exactly when it is not blank, and
      the candidate is the piece stripped of surrounding whitespace. */
  lemma CandidatesOf(srcset: string, ps: seq<string>, c: string)
    requires ps == Split(srcset, ",")
    ensures c in Candidates(srcset) <==> c != "" && exists i | 0 <= i < |ps| :: c == Strip(ps[i])
  {
    NonEmptyStripsMembers(ps, c);
  }

  lemma {:induction false} NonEmptyStripsAvoid(ps: seq<string>, c: char)
    requires forall i :: 0 <= i < |ps| ==> c !in ps[i]
    ensures forall i :: 0 <= i < |NonEmptyStrips(ps)| ==> c !in NonEmptyStrips(ps)[i]
  {
    if ps != [] {
      StripAvoids(ps[0], c);
      NonEmptyStripsAvoid(ps[1..], c);
    }
  }

  /** No candidate contains a comma. */
  lemma CandidatesAvoidComma(srcset: string)
    ensures forall i :: 0 <= i < |Candidates(srcset)| ==> ',' !in Candidates(srcset)[i]
  {
    var ps := Split(srcset, ",");
    SplitPiecesAvoid(srcset, ',');
    assert Candidates(srcset) == NonEmptyStrips(ps);
    NonEmptyStripsAvoid(ps, ',');
  }

  lemma NonEmptyStripsLeadingSpace(p: string, rest: seq<string>)
    ensures NonEmptyStrips([" " + p] + rest) == NonEmptyStrips([p] + rest)
  {
    StripLeadingSpace(p);
    assert ([" " + p] + rest)[1..] == rest;
    assert ([p] + rest)[1..] == rest;
  }

  /** Candidates written back as `", ".join(...)` parse into the same
      candidates: the serialisation the rewriter uses loses nothing. */
  lemma {:induction false} CandidatesJoin(xs: seq<string>)
    requires forall i :: 0 <= i < |xs| ==> IsCandidate(xs[i]) && ',' !in xs[i]
    ensures Candidates(Join(xs, ", ")) == xs
  {
    if xs == [] {
      assert Join(xs, ", ") == "";
      assert Split("", ",") == [""];
      assert Strip("") == "";
    } else if |xs| == 1 {
      CandidatesOne(xs[0]);
    } else {
      CandidatesJoin(xs[1..]);
      CandidatesCons(xs[0], xs[1..]);
      assert xs == [xs[0]] + xs[1..];
    }
  }

  lemma CandidatesOne(x: string)
    requires IsCandidate(x) && ',' !in x
    ensures Candidates(Join([x], ", ")) == [x]
  {
    assert Join([x], ", ") == x;
    SplitAlone(x, ',');
    StripTight(x);
    assert NonEmptyStrips([x]) == [x] + NonEmptyStrips([]);
  }

  lemma CandidatesCons(x: string, ys: seq<string>)
    requires IsCandidate(x) && ',' !in x && ys != []
    ensures Candidates(Join([x] + ys, ", ")) == [x] + Candidates(Join(ys, ", "))
  {
    var j := Join(ys, ", ");
    var s := Join([x] + ys, ", ");
    assert ([x] + ys)[1..] == ys;
    assert s == x + [','] + (" " + j);
    var ps := Split(s, ",");
    SplitCons(x, ',', " " + j);
    SplitOther(' ', j, ',');
    var r := Split(j, ",");
    assert ps == [x] + ([" " + r[0]] + r[1..]);
    NonEmptyStripsLeadingSpace(r[0], r[1..]);
    assert [r[0]] + r[1..] == r;
    StripTight(x);
    assert ps[1..] == [" " + r[0]] + r[1..];
    assert NonEmptyStrips(ps) == [x] + NonEmptyStrips(ps[1..]);
  }

  /** `p.split()[0]`: the URL a candidate names. */
  function CandidateUrl(c: string): (u: string)
    requires IsCandidate(c)
    ensures u != [] && StartsWith(c, u)
    ensures forall j :: 0 <= j < |u| ==> !IsSpace(u[j])
    ensures |u| == |c| || IsSpace(c[|u|])
  {
    Words(c)[0]
  }
}
