/** `String.split(",")` (limit 0) and `String.join(",", …)` on Java strings. */
module JavaString {

  /** `s.split(",")`: a string without a comma splits into itself (so "" gives
      [""]); otherwise the text before the first comma followed by the split of
      the text after it, where empty pieces at the end are dropped (so ","
      gives [], "a,b,," gives ["a", "b"] and ",b" gives ["", "b"]). */
  function Split(s: string): seq<string>
    decreases |s|
  {
    if ',' !in s then [s]
    else
      var k := FirstComma(s);
      var head, tail := s[..k], s[k + 1..];
      var rest := if tail == [] then [] else Split(tail);
      if rest == [] && head == [] then [] else [head] + rest
  }

  /** The position of the first comma of `s`. */
  function FirstComma(s: string): (k: nat)
    requires ',' in s
    ensures k < |s| && s[k] == ',' && ',' !in s[..k]
  {
    if s[0] == ',' then 0 else 1 + FirstComma(s[1..])
  }

  /** `String.join(",", fs)`. */
  function Join(fs: seq<string>): string
  {
    if fs == [] then "" else if |fs| == 1 then fs[0] else fs[0] + "," + Join(fs[1..])
  }

  /** The first comma of a comma-free piece followed by a comma is right after the piece. */
  lemma FirstCommaAfterPiece(p: string, t: string)
    requires ',' !in p
    ensures ',' in p + "," + t && FirstComma(p + "," + t) == |p|
  {
    var s := p + "," + t;
    assert s[|p|] == ',';
    assert s[..|p|] == p;
  }

  /** Splitting a line that starts with a comma-free piece and a comma. */
  lemma SplitAfterPiece(p: string, t: string)
    requires ',' !in p
    ensures Split(p + "," + t) ==
      (var rest := if t == [] then [] else Split(t);
       if rest == [] && p == [] then [] else [p] + rest)
  {
    var s := p + "," + t;
    FirstCommaAfterPiece(p, t);
    assert s[..|p|] == p;
    assert s[|p| + 1..] == t;
  }

  /** No field of a split line contains a comma. */
  lemma {:induction false} SplitNoComma(s: string)
    ensures forall i :: 0 <= i < |Split(s)| ==> ',' !in Split(s)[i]
    decreases |s|
  {
    if ',' in s {
      var k := FirstComma(s);
      var tail := s[k + 1..];
      if tail != [] {
        SplitNoComma(tail);
      }
    }
  }

  /** A join whose last piece is not empty is not empty. */
  lemma {:induction false} JoinNotEmpty(gs: seq<string>)
    requires |gs| >= 1 && gs[|gs| - 1] != ""
    ensures Join(gs) != ""
  {
    if |gs| > 1 {
      JoinNotEmpty(gs[1..]);
    }
  }

  /** Round trip: a field list whose last field is not empty (or that has just
      one field) is what `split` returns for its comma-joined line. */
  lemma {:induction false} SplitJoin(fs: seq<string>)
    requires |fs| >= 1
    requires forall i :: 0 <= i < |fs| ==> ',' !in fs[i]
    requires |fs| == 1 || fs[|fs| - 1] != ""
    ensures Split(Join(fs)) == fs
  {
    if |fs| == 1 {
      assert Join(fs) == fs[0];
    } else {
      var rest := fs[1..];
      JoinNotEmpty(rest);
      SplitJoin(rest);
      SplitJoinCons(fs[0], rest);
      assert [fs[0]] + rest == fs;
    }
  }

  /** A comma-free field in front of a list that splits back to itself. */
  lemma SplitJoinCons(p: string, gs: seq<string>)
    requires ',' !in p && gs != [] && Join(gs) != ""
    requires Split(Join(gs)) == gs
    ensures Split(Join([p] + gs)) == [p] + gs
  {
    JoinAfterPiece(p, gs);
    SplitAfterPiece(p, Join(gs));
  }

  /** The other direction: joining the fields of a split line gives the line
      back up to the commas at its end that `split` dropped. */
  lemma {:induction false} JoinSplit(s: string)
    ensures |Join(Split(s))| <= |s|
    ensures Join(Split(s)) == s[..|Join(Split(s))|]
    ensures forall i :: |Join(Split(s))| <= i < |s| ==> s[i] == ','
    decreases |s|
  {
    if ',' in s {
      var k := FirstComma(s);
      var head, tail := s[..k], s[k + 1..];
      assert s == head + "," + tail;
      SplitAfterPiece(head, tail);
      var rest := if tail == [] then [] else Split(tail);
      if tail != [] {
        JoinSplit(tail);
      }
      JoinSplitCons(head, tail, rest);
    }
  }

  /** The step of `JoinSplit`: a piece and a comma in front of a line whose
      fields join back to it up to trailing commas. */
  lemma JoinSplitCons(head: string, tail: string, rest: seq<string>)
    requires tail == [] ==> rest == []
    requires |Join(rest)| <= |tail| && Join(rest) == tail[..|Join(rest)|]
    requires forall i :: |Join(rest)| <= i < |tail| ==> tail[i] == ','
    ensures var s, fs := head + "," + tail, if rest == [] && head == [] then [] else [head] + rest;
      |Join(fs)| <= |s| && Join(fs) == s[..|Join(fs)|] && forall i :: |Join(fs)| <= i < |s| ==> s[i] == ','
  {
    var s := head + "," + tail;
    var k := |head|;
    if rest != [] {
      JoinAfterPiece(head, rest);
      assert Join([head] + rest) == head + "," + Join(rest);
      forall i | k + 1 + |Join(rest)| <= i < |s| ensures s[i] == ',' {
        assert s[i] == tail[i - k - 1];
      }
    } else if head != [] {
      assert Join([head]) == head;
      forall i | k <= i < |s| ensures s[i] == ',' {
        if i > k {
          assert s[i] == tail[i - k - 1];
        }
      }
    } else {
      forall i | 0 <= i < |s| ensures s[i] == ',' {
        if i > 0 {
          assert s[i] == tail[i - 1];
        }
      }
    }
  }

  lemma JoinAfterPiece(p: string, gs: seq<string>)
    requires gs != []
    ensures Join([p] + gs) == p + "," + Join(gs)
  {
    assert ([p] + gs)[1..] == gs;
  }

  /** What `split` does with the edge cases of Java's limit-0 split. */
  lemma SplitEdgeCases()
    ensures Split("") == [""]
    ensures Split(",") == []
    ensures Split("a,,") == ["a"]
    ensures Split(",b") == ["", "b"]
  {
    assert ",b"[1..] == "b";
    assert "a,,"[2..] == ",";
    assert "a,,"[..1] == "a";
    assert "a,,"[1] == ',';
    assert FirstComma("a,,") == 1;
  }
}
