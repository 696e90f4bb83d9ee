/** File paths: kept in a normal form, written as strings, and taken relative to each other.

    A path is executed segment by segment on a stack: an empty one and `.` do nothing, `..`
    takes the top away unless there is nothing but `..` below. The string of a path is kept
    beside its segments and always rendered anew; what is proved is that reading the string
    executes to the segments again. */
module Path {
  import opened Values

  // Segments

  predicate IsSegment(s: string) { s != "" && s != "." && '/' !in s }

  /** Some `..` segments, followed by ordinary ones. */
  ghost predicate IsNormal(segments: seq<string>) {
    && (forall i :: 0 <= i < |segments| ==> IsSegment(segments[i]))
    && forall i, j :: 0 <= i < j < |segments| && segments[j] == ".." ==> segments[i] == ".."
  }

  function Execute(segments: seq<string>, segment: string): seq<string> {
    if segment == "" || segment == "." then segments
    else if segment == ".." then
      if segments == [] || segments[|segments| - 1] == ".." then segments + [segment]
      else segments[..|segments| - 1]
    else segments + [segment]
  }

  function ExecuteAll(segments: seq<string>, more: seq<string>): seq<string>
    decreases |more|
  {
    if more == [] then segments else ExecuteAll(Execute(segments, more[0]), more[1..])
  }

  /** The place of the first slash. */
  function FindSlash(s: string): (r: Option<nat>)
    ensures r.Some? ==> r.value < |s| && s[r.value] == '/' && '/' !in s[..r.value]
    ensures r.None? ==> '/' !in s
  {
    if s == "" then None
    else if s[0] == '/' then Some(0)
    else
      var r := FindSlash(s[1..]);
      if r.None? then (assert s == [s[0]] + s[1..]; None) else
      assert s[..r.value + 1] == [s[0]] + s[1..][..r.value];
      Some(r.value + 1)
  }

  datatype Entry = Entry(segment: string, rest: string)

  function NextSegment(s: string): (e: Entry)
    requires s != ""
    ensures |e.rest| < |s| && '/' !in e.segment
  {
    var slash := FindSlash(s);
    if slash.None? then Entry(s, "") else Entry(s[..slash.value], s[slash.value + 1..])
  }

  function Split(s: string): seq<string>
    decreases |s|
  {
    if s == "" then [] else [NextSegment(s).segment] + Split(NextSegment(s).rest)
  }

  function RenderSegments(segments: seq<string>): string {
    if segments == [] then "" else
    segments[0] + (if |segments| > 1 then "/" else "") + RenderSegments(segments[1..])
  }

  function Render(isAbsolute: bool, segments: seq<string>): string {
    (if isAbsolute then "/" else "") + RenderSegments(segments)
  }

  predicate StartsWithSlash(s: string) { s != "" && s[0] == '/' }

  /** How many segments two paths share. */
  function SharedLength(from: seq<string>, to: seq<string>): (n: nat)
    ensures n <= |from| && n <= |to| && from[..n] == to[..n]
    ensures n < |from| && n < |to| ==> from[n] != to[n]
  {
    if from == [] || to == [] || from[0] != to[0] then 0 else 1 + SharedLength(from[1..], to[1..])
  }

  function Ups(n: nat): (r: seq<string>)
    ensures |r| == n && forall i :: 0 <= i < n ==> r[i] == ".."
  {
    seq(n, _ => "..")
  }

  function RelativeSegments(from: seq<string>, to: seq<string>): seq<string> {
    var n := SharedLength(from, to);
    Ups(|from| - n) + to[n..]
  }

  // The path object

  class Path {
    var segments: seq<string>
    var text: string
    var isAbsolute: bool

    ghost predicate Valid()
      reads this
    {
      IsNormal(segments) && text == Render(isAbsolute, segments)
    }

    constructor (s: string)
      ensures Valid() && isAbsolute == StartsWithSlash(s) && segments == ExecuteAll([], Split(s))
    {
      segments := [];
      text := "";
      isAbsolute := s != "" && s[0] == '/';
      new;
      Join(s);
    }

    method ExecuteSegment(segment: string)
      modifies this`segments
      ensures segments == Execute(old(segments), segment)
    {
      if segment == "" {
      } else if segment == "." {
      } else if segment == ".." {
        if segments == [] || segments[|segments| - 1] == ".." {
          segments := segments + [segment];
        } else {
          segments := segments[..|segments| - 1];
        }
      } else {
        segments := segments + [segment];
      }
    }

    method UpdateString()
      modifies this`text
      ensures text == Render(isAbsolute, segments)
    {
      text := if isAbsolute then "/" else "";
      ghost var whole := Render(isAbsolute, segments);
      var length := |segments|;
      assert segments[0..] == segments;
      for i := 0 to length
        invariant text + RenderSegments(segments[i..]) == whole
      {
        assert segments[i..][0] == segments[i] && segments[i..][1..] == segments[i + 1..];
        ghost var before := text;
        text := text + segments[i];
        if i != length - 1 { text := text + "/"; }
        assert before + RenderSegments(segments[i..]) == text + RenderSegments(segments[i + 1..]);
      }
      assert text + "" == text;
    }

    method Join(s: string)
      requires IsNormal(segments)
      modifies this`segments, this`text
      ensures Valid() && segments == ExecuteAll(old(segments), Split(s))
    {
      ghost var all := ExecuteAll(segments, Split(s));
      var rest := s;
      while rest != ""
        invariant IsNormal(segments) && ExecuteAll(segments, Split(rest)) == all
        decreases |rest|
      {
        var entry := NextSegment(rest);
        ExecuteNormal(segments, entry.segment);
        assert Split(rest)[0] == entry.segment && Split(rest)[1..] == Split(entry.rest);
        ExecuteSegment(entry.segment);
        rest := entry.rest;
      }
      UpdateString();
    }

    method PushUps(n: nat)
      modifies this`segments
      ensures segments == old(segments) + Ups(n)
    {
      for i := 0 to n
        invariant segments == old(segments) + Ups(i)
      {
        assert Ups(i) + [".."] == Ups(i + 1);
        segments := segments + [".."];
      }
    }

    method PushAll(more: seq<string>)
      modifies this`segments
      ensures segments == old(segments) + more
    {
      for i := 0 to |more|
        invariant segments == old(segments) + more[..i]
      {
        assert more[..i] + [more[i]] == more[..i + 1];
        segments := segments + [more[i]];
      }
      assert more[..|more|] == more;
    }

    /** Joins, but starts over at the root when the string is absolute. */
    method Resolve(s: string)
      requires Valid()
      modifies this
      ensures Valid() && isAbsolute == (old(isAbsolute) || StartsWithSlash(s))
      ensures segments == ExecuteAll(if StartsWithSlash(s) then [] else old(segments), Split(s))
    {
      if s != "" && s[0] == '/' {
        isAbsolute := true;
        segments := [];
      }
      Join(s);
    }
  }

  method PathEqual(x: Path, y: Path) returns (same: bool)
    requires x.Valid() && y.Valid()
    ensures same <==> x.isAbsolute == y.isAbsolute && x.segments == y.segments
  {
    same := x.text == y.text;
    if same {
      RenderParses(x.isAbsolute, x.segments);
      RenderParses(y.isAbsolute, y.segments);
    }
  }

  method FindRelativeIndex(from: Path, to: Path) returns (index: nat)
    ensures index == SharedLength(from.segments, to.segments)
  {
    for i := 0 to |from.segments|
      invariant i <= |to.segments|
      invariant SharedLength(from.segments, to.segments) == i + SharedLength(from.segments[i..], to.segments[i..])
    {
      if i >= |to.segments| { return i; }
      if from.segments[i] != to.segments[i] { return i; }
      assert from.segments[i..][1..] == from.segments[i + 1..] && to.segments[i..][1..] == to.segments[i + 1..];
    }
    index := |from.segments|;
  }

  method PathRelative(from: Path, to: Path) returns (relative: Path)
    requires from.Valid() && to.Valid() && from.isAbsolute == to.isAbsolute
    ensures fresh(relative) && relative.Valid() && !relative.isAbsolute
    ensures relative.segments == RelativeSegments(from.segments, to.segments)
  {
    hide IsNormal, Render, ExecuteAll, Execute;
    var index := FindRelativeIndex(from, to);
    var fromSegments, toSegments := from.segments, to.segments;
    relative := new Path("");
    Nothing();
    hide SharedLength, Split;
    relative.PushUps(|fromSegments| - index);
    relative.PushAll(toSegments[index..]);
    RelativeNormal(fromSegments, toSegments);
    assert relative.segments == RelativeSegments(fromSegments, toSegments);
    relative.UpdateString();
  }

  lemma Nothing()
    ensures ExecuteAll([], Split("")) == [] && !StartsWithSlash("")
  {
  }

  // Normal form

  lemma ExecuteNormal(segments: seq<string>, segment: string)
    requires IsNormal(segments) && '/' !in segment
    ensures IsNormal(Execute(segments, segment))
  {
    var r := Execute(segments, segment);
    assert forall i :: 0 <= i < |r| && i < |segments| ==> r[i] == segments[i];
    if segment == ".." && segments != [] && segments[|segments| - 1] == ".." {
      assert forall i :: 0 <= i < |segments| ==> segments[i] == "..";
    }
  }

  /** A normal path executed on nothing is itself. */
  lemma {:induction false} ExecuteFrom(done: seq<string>, more: seq<string>)
    requires IsNormal(done + more)
    ensures ExecuteAll(done, more) == done + more
    decreases |more|
  {
    if more == [] {
      assert done + more == done;
    } else {
      var next := done + [more[0]];
      assert (done + more)[|done|] == more[0];
      assert IsSegment(more[0]);
      if done != [] { assert (done + more)[|done| - 1] == done[|done| - 1]; }
      assert Execute(done, more[0]) == next;
      assert next + more[1..] == done + more;
      ExecuteFrom(next, more[1..]);
    }
  }

  // What is redundant

  /** A dot or an empty segment anywhere changes nothing, and neither does going into an ordinary
      segment and up again. */
  lemma Redundant(segments: seq<string>, a: seq<string>, name: string, b: seq<string>)
    ensures ExecuteAll(segments, a + ["."] + b) == ExecuteAll(segments, a + b)
    ensures ExecuteAll(segments, a + [""] + b) == ExecuteAll(segments, a + b)
    ensures name != "" && name != "." && name != ".." ==>
              ExecuteAll(segments, a + [name, ".."] + b) == ExecuteAll(segments, a + b)
  {
    hide ExecuteAll, Execute;
    var at := ExecuteAll(segments, a);
    ExecuteOne(at, ".");
    ExecuteOne(at, "");
    Neutral(segments, a, ["."], b);
    Neutral(segments, a, [""], b);
    if name != "" && name != "." && name != ".." {
      InAndOut(at, name);
      Neutral(segments, a, [name, ".."], b);
    }
  }

  lemma ExecuteOne(segments: seq<string>, segment: string)
    ensures ExecuteAll(segments, [segment]) == Execute(segments, segment)
    ensures Execute(segments, ".") == segments && Execute(segments, "") == segments
  {
    assert [segment][1..] == [];
  }

  lemma InAndOut(segments: seq<string>, name: string)
    requires name != "" && name != "." && name != ".."
    ensures ExecuteAll(segments, [name, ".."]) == segments
  {
    assert [name, ".."] == [name] + [".."];
    ExecuteAppend(segments, [name], [".."]);
    ExecuteOne(segments, name);
    ExecuteOne(segments + [name], "..");
    assert (segments + [name])[..|segments|] == segments;
    hide ExecuteAll;
  }

  /** What changes nothing where it stands can be left out. */
  lemma Neutral(segments: seq<string>, a: seq<string>, x: seq<string>, b: seq<string>)
    requires ExecuteAll(ExecuteAll(segments, a), x) == ExecuteAll(segments, a)
    ensures ExecuteAll(segments, a + x + b) == ExecuteAll(segments, a + b)
  {
    hide ExecuteAll;
    ExecuteAppend(segments, a, b);
    ExecuteAppend(segments, a, x);
    ExecuteAppend(segments, a + x, b);
  }

  /** So in a string: a dot between slashes, a slash too many, and a name with two dots after it
      make no difference, wherever they stand. */
  lemma RedundantText(segments: seq<string>, a: string, name: string, s: string)
    requires a == "" || a[|a| - 1] == '/'
    requires name != "" && name != "." && name != ".." && '/' !in name
    ensures ExecuteAll(segments, Split(a + "./" + s)) == ExecuteAll(segments, Split(a + s))
    ensures ExecuteAll(segments, Split(a + "/" + s)) == ExecuteAll(segments, Split(a + s))
    ensures ExecuteAll(segments, Split(a + name + "/../" + s)) == ExecuteAll(segments, Split(a + s))
  {
    hide ExecuteAll, Split;
    SplitAfter(a, "./" + s);
    SplitAfter(a, "/" + s);
    SplitAfter(a, name + "/../" + s);
    SplitAfter(a, s);
    assert a + "./" + s == a + ("./" + s) && a + "/" + s == a + ("/" + s);
    assert a + name + "/../" + s == a + (name + "/../" + s);
    SplitFirst(".", s);
    SplitFirst("", s);
    SplitFirst("..", s);
    SplitFirst(name, "../" + s);
    assert "./" + s == "." + "/" + s && "/" + s == "" + "/" + s && "../" + s == ".." + "/" + s;
    assert name + "/../" + s == name + "/" + ("../" + s);
    assert [name] + ([".."] + Split(s)) == [name, ".."] + Split(s);
    var one, none, two: seq<string> := ["."], [""], [name, ".."];
    assert Split(a) + (one + Split(s)) == Split(a) + one + Split(s);
    assert Split(a) + (none + Split(s)) == Split(a) + none + Split(s);
    assert Split(a) + (two + Split(s)) == Split(a) + two + Split(s);
    Redundant(segments, Split(a), name, Split(s));
  }

  /** A string that ends in a slash is split apart from what follows. */
  lemma {:induction false} SplitAfter(a: string, s: string)
    requires a == "" || a[|a| - 1] == '/'
    ensures Split(a + s) == Split(a) + Split(s)
    decreases |a|
  {
    if a == "" {
      assert Split(a) == [];
      assert a + s == s && [] + Split(s) == Split(s);
      hide Split;
    } else {
      hide Split;
      var first, rest := FirstPart(a);
      SplitAfter(rest, s);
      SplitBoth(first, rest, s);
    }
  }

  lemma SplitBoth(first: string, rest: string, s: string)
    requires '/' !in first && Split(rest + s) == Split(rest) + Split(s)
    ensures Split(first + "/" + rest + s) == Split(first + "/" + rest) + Split(s)
  {
    hide Split;
    SplitFirst(first, rest);
    SplitFirst(first, rest + s);
    assert first + "/" + rest + s == first + "/" + (rest + s);
    assert [first] + (Split(rest) + Split(s)) == [first] + Split(rest) + Split(s);
  }

  lemma FirstPart(a: string) returns (first: string, rest: string)
    requires a != "" && a[|a| - 1] == '/'
    ensures a == first + "/" + rest && '/' !in first && (rest == "" || rest[|rest| - 1] == '/')
  {
    var i := FindSlash(a).value;
    first, rest := a[..i], a[i + 1..];
    assert a == first + "/" + rest;
  }

  // The string form

  lemma {:induction false} FindSlashAt(s: string, i: nat)
    requires i < |s| && s[i] == '/' && '/' !in s[..i]
    ensures FindSlash(s) == Some(i)
  {
    if i > 0 {
      assert s[0] == s[..i][0];
      assert s[1..][..i - 1] == s[..i][1..];
      FindSlashAt(s[1..], i - 1);
    }
  }

  lemma SplitFirst(segment: string, rest: string)
    requires '/' !in segment
    ensures Split(segment + "/" + rest) == [segment] + Split(rest)
  {
    var s := segment + "/" + rest;
    assert s[..|segment|] == segment && s[|segment|] == '/' && s[|segment| + 1..] == rest;
    FindSlashAt(s, |segment|);
  }

  lemma SplitLast(segment: string)
    requires IsSegment(segment)
    ensures Split(segment) == [segment]
  {
    assert Split("") == [];
  }

  lemma {:induction false} SplitRender(segments: seq<string>)
    requires forall i :: 0 <= i < |segments| ==> IsSegment(segments[i])
    ensures Split(RenderSegments(segments)) == segments
    ensures !StartsWithSlash(RenderSegments(segments))
  {
    if segments != [] {
      var rest := segments[1..];
      SplitRender(rest);
      assert IsSegment(segments[0]) && segments[0][0] in segments[0];
      assert RenderSegments(segments)[0] == segments[0][0];
      hide Split;
      if |segments| == 1 {
        assert RenderSegments(segments) == segments[0];
        SplitLast(segments[0]);
      } else {
        SplitFirst(segments[0], RenderSegments(rest));
        assert [segments[0]] + rest == segments;
      }
    }
  }

  lemma EmptyFirst(segments: seq<string>)
    ensures ExecuteAll([], [""] + segments) == ExecuteAll([], segments)
  {
    assert ([""] + segments)[1..] == segments;
  }

  lemma SplitSlash(s: string)
    ensures Split("/" + s) == [""] + Split(s) && StartsWithSlash("/" + s)
  {
    assert "" + "/" + s == "/" + s;
    SplitFirst("", s);
    hide Split;
  }

  /** Reading back the string of a path gives the path, so that paths are equal exactly when
      their strings are. */
  lemma RenderParses(isAbsolute: bool, segments: seq<string>)
    requires IsNormal(segments)
    ensures StartsWithSlash(Render(isAbsolute, segments)) == isAbsolute
    ensures ExecuteAll([], Split(Render(isAbsolute, segments))) == segments
  {
    SplitRender(segments);
    assert [] + segments == segments;
    ExecuteFrom([], segments);
    hide RenderSegments, IsNormal, Split, ExecuteAll, StartsWithSlash;
    SplitSlash(RenderSegments(segments));
    EmptyFirst(segments);
    assert "" + RenderSegments(segments) == RenderSegments(segments);
  }

  // Relative paths

  lemma RelativeNormal(from: seq<string>, to: seq<string>)
    requires IsNormal(to)
    ensures IsNormal(RelativeSegments(from, to))
  {
    var n := SharedLength(from, to);
    var ups, r := Ups(|from| - n), RelativeSegments(from, to);
    assert forall i :: 0 <= i < |ups| ==> r[i] == "..";
    assert forall i :: |ups| <= i < |r| ==> r[i] == to[n + i - |ups|];
  }

  /** How many `..` a normal path begins with. */
  function CountUps(segments: seq<string>): (n: nat)
    ensures n <= |segments|
  {
    if segments == [] || segments[0] != ".." then 0 else 1 + CountUps(segments[1..])
  }

  lemma {:induction false} ExecuteAppend(segments: seq<string>, a: seq<string>, b: seq<string>)
    ensures ExecuteAll(segments, a + b) == ExecuteAll(ExecuteAll(segments, a), b)
    decreases |a|
  {
    if a == [] {
      assert a + b == b;
    } else {
      assert (a + b)[0] == a[0] && (a + b)[1..] == a[1..] + b;
      ExecuteAppend(Execute(segments, a[0]), a[1..], b);
    }
  }

  /** Going up takes ordinary segments away. */
  lemma {:induction false} GoUp(segments: seq<string>, n: nat)
    requires n <= |segments| && forall i :: |segments| - n <= i < |segments| ==> segments[i] != ".."
    ensures ExecuteAll(segments, Ups(n)) == segments[..|segments| - n]
    decreases n
  {
    if n == 0 {
      assert Ups(0) == [] && segments[..|segments|] == segments;
    } else {
      assert Ups(n)[1..] == Ups(n - 1);
      var shorter := segments[..|segments| - 1];
      GoUp(shorter, n - 1);
      assert shorter[..|shorter| - (n - 1)] == segments[..|segments| - n];
    }
  }

  /** From where there is nothing ordinary, going up adds. */
  lemma {:induction false} GoBeyond(segments: seq<string>, n: nat)
    requires forall i :: 0 <= i < |segments| ==> segments[i] == ".."
    ensures ExecuteAll(segments, Ups(n)) == segments + Ups(n)
    decreases n
  {
    if n == 0 {
      assert Ups(0) == [] && segments + [] == segments;
    } else {
      assert Ups(n)[1..] == Ups(n - 1);
      GoBeyond(segments + [".."], n - 1);
      assert segments + [".."] + Ups(n - 1) == segments + Ups(n);
    }
  }

  predicate HasUpsPast(segments: seq<string>, n: nat)
    requires n <= |segments|
  {
    ".." in segments[n..]
  }

  lemma JoinWithout(from: seq<string>, to: seq<string>)
    requires IsNormal(from) && IsNormal(to) && !HasUpsPast(from, SharedLength(from, to))
    ensures ExecuteAll(from, RelativeSegments(from, to)) == to
  {
    hide IsNormal, ExecuteAll, Execute;
    var n := SharedLength(from, to);
    hide SharedLength;
    ExecuteAppend(from, Ups(|from| - n), to[n..]);
    forall i | n <= i < |from| ensures from[i] != ".." { assert from[i] == from[n..][i - n]; }
    GoUp(from, |from| - n);
    assert from[..|from| - (|from| - n)] == to[..n];
    assert to[..n] + to[n..] == to;
    ExecuteFrom(to[..n], to[n..]);
  }

  /** Where the `..` of a normal path end. */
  lemma {:induction false} NormalCount(segments: seq<string>) returns (d: nat)
    requires IsNormal(segments)
    ensures d == CountUps(segments) <= |segments|
    ensures forall i :: 0 <= i < d ==> segments[i] == ".."
    ensures forall i :: d <= i < |segments| ==> segments[i] != ".."
  {
    d := CountUps(segments);
    if segments != [] && segments[0] == ".." {
      var rest := segments[1..];
      assert forall i :: 0 <= i < |rest| ==> rest[i] == segments[i + 1];
      var e := NormalCount(rest);
      forall i | 0 <= i < |segments| ensures segments[i] == ".." <==> i < d {
        if i > 0 { assert segments[i] == rest[i - 1]; }
      }
    } else {
      forall i | 0 < i < |segments| ensures segments[i] != ".." { assert segments[0] != ".."; }
    }
  }

  /** Only `..` in front of the end of a normal path that began so. */
  lemma UpsNormal(base: seq<string>, to: seq<string>, n: nat)
    requires IsNormal(to) && n <= |to| && forall i :: 0 <= i < |base| ==> base[i] == ".."
    ensures IsNormal(base + to[n..])
  {
    var r := base + to[n..];
    assert forall i :: |base| <= i < |r| ==> r[i] == to[n + i - |base|];
  }

  /** Going up from a normal path further than it has ordinary segments. */
  lemma GoUpBeyond(from: seq<string>, d: nat, k: nat)
    requires d <= |from| && k >= |from| - d
    requires forall i :: 0 <= i < d ==> from[i] == ".."
    requires forall i :: d <= i < |from| ==> from[i] != ".."
    ensures ExecuteAll(from, Ups(k)) == from[..d] + Ups(k - (|from| - d))
  {
    hide ExecuteAll;
    var m := |from| - d;
    assert Ups(k) == Ups(m) + Ups(k - m);
    ExecuteAppend(from, Ups(m), Ups(k - m));
    GoUp(from, m);
    assert from[..|from| - m] == from[..d];
    GoBeyond(from[..d], k - m);
  }

  lemma AllUps(s: seq<string>, k: nat)
    requires forall i :: 0 <= i < |s| ==> s[i] == ".."
    ensures forall i :: 0 <= i < |s + Ups(k)| ==> (s + Ups(k))[i] == ".."
  {
  }

  lemma PastShared(from: seq<string>, n: nat, d: nat)
    requires n <= |from| && HasUpsPast(from, n) && forall i :: d <= i < |from| ==> from[i] != ".."
    ensures n < d
  {
    var p :| 0 <= p < |from[n..]| && from[n..][p] == "..";
    assert from[n + p] == "..";
  }

  /** Below more `..` than a path has segments in front of its rest, the rest leads elsewhere. */
  lemma RestLeadsElsewhere(base: seq<string>, to: seq<string>, n: nat)
    requires IsNormal(to) && n <= |to| && n < |base|
    requires forall i :: 0 <= i < |base| ==> base[i] == ".."
    ensures ExecuteAll(base, to[n..]) != to
  {
    UpsNormal(base, to, n);
    hide IsNormal, ExecuteAll;
    ExecuteFrom(base, to[n..]);
    assert |base + to[n..]| == |base| + |to| - n;
  }

  lemma JoinWith(from: seq<string>, to: seq<string>)
    requires IsNormal(from) && IsNormal(to) && HasUpsPast(from, SharedLength(from, to))
    ensures ExecuteAll(from, RelativeSegments(from, to)) != to
  {
    hide IsNormal, ExecuteAll, Execute, CountUps;
    var n := SharedLength(from, to);
    hide SharedLength;
    var d := NormalCount(from);
    PastShared(from, n, d);
    hide HasUpsPast;
    GoUpBeyond(from, d, |from| - n);
    var base := from[..d] + Ups(d - n);
    AllUps(from[..d], d - n);
    RestLeadsElsewhere(base, to, n);
    ExecuteAppend(from, Ups(|from| - n), to[n..]);
  }

  /** Joining a path with what leads from it to another comes to the other exactly when the
      first has no `..` past what they share. */
  lemma RelativeLeadsThere(from: seq<string>, to: seq<string>)
    requires IsNormal(from) && IsNormal(to)
    ensures ExecuteAll(from, RelativeSegments(from, to)) == to <==> !HasUpsPast(from, SharedLength(from, to))
  {
    if HasUpsPast(from, SharedLength(from, to)) { JoinWith(from, to); } else { JoinWithout(from, to); }
  }
}
