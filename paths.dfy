/** Object paths of the streaming validator: how a location in the document
    is written as text, and the prefix test that decides whether the current
    location (plus the key just read) is on the way to a configured path. */
module ObjectPaths {
  import opened Strings

  /** The name that stands for "some element of an array" in a path. */
  const ArrayMarker: string := "[]"

  /** A frame of the indexed path: a member name with -1, or the array marker
      with the number of elements already seen in that array. */
  type Frame = (string, int)

  // ---------------------------------------------------------------------
  // objectPathToString over names
  // ---------------------------------------------------------------------

  function NamePiece(part: string): string
  {
    if part != ArrayMarker then "." + part else part
  }

  /** Every name is written with a leading ".", the array marker as it is:
      `["a", "[]", "b"]` gives `.a[].b`. */
  function PathToString(path: seq<string>): string
  {
    if path == [] then "" else NamePiece(path[0]) + PathToString(path[1..])
  }

  /** Rendering a path is rendering its parts one after the other. */
  lemma {:induction false} PathToStringAppend(p: seq<string>, q: seq<string>)
    ensures PathToString(p + q) == PathToString(p) + PathToString(q)
  {
    if p != [] {
      assert (p + q)[0] == p[0];
      assert (p + q)[1..] == p[1..] + q;
      PathToStringAppend(p[1..], q);
      calc {
        PathToString(p + q);
        NamePiece(p[0]) + PathToString(p[1..] + q);
        NamePiece(p[0]) + (PathToString(p[1..]) + PathToString(q));
        (NamePiece(p[0]) + PathToString(p[1..])) + PathToString(q);
      }
    } else {
      assert p + q == q;
      assert "" + PathToString(q) == PathToString(q);
    }
  }

  /** Only the empty path renders as the empty string. */
  lemma PathToStringEmpty(p: seq<string>)
    ensures PathToString(p) == "" <==> p == []
  {
    if p != [] {
      assert |NamePiece(p[0])| > 0;
    }
  }

  // ---------------------------------------------------------------------
  // objectPathToString over indexed frames
  // ---------------------------------------------------------------------

  /** The loop over the frames: `acc` is the text so far and `first` says
      that no named frame has been written yet. */
  function RenderFrames(path: seq<Frame>, acc: string, first: bool): (string, bool)
  {
    if path == [] then (acc, first)
    else if path[0].0 == ArrayMarker then
      RenderFrames(path[1..], acc + "." + IntToDecimal(path[0].1), first)
    else
      RenderFrames(path[1..], (if first then acc else acc + ".") + path[0].0, false)
  }

  /** The concrete location written as text, such as
      `provider_references.0.location`, with `lastPart` (the pending key)
      appended. */
  function IndexedPathToString(path: seq<Frame>, lastPart: string): (r: string)
    ensures path == [] ==> r == lastPart
  {
    if |path| == 0 then lastPart
    else
      var (text, first) := RenderFrames(path, "", true);
      if lastPart != "" then (if !first then text + "." else text) + lastPart else text
  }

  /** What a frame contributes: its name, or the element index for an array
      marker. */
  function FramePiece(f: Frame): string
  {
    if f.0 == ArrayMarker then IntToDecimal(f.1) else f.0
  }

  function FramePieces(path: seq<Frame>): (r: seq<string>)
    ensures |r| == |path| && forall i :: 0 <= i < |path| ==> r[i] == FramePiece(path[i])
  {
    if path == [] then [] else [FramePiece(path[0])] + FramePieces(path[1..])
  }

  /** `sep + p` for every piece, concatenated. */
  function Prefixed(pieces: seq<string>, sep: string): string
  {
    if pieces == [] then "" else sep + pieces[0] + Prefixed(pieces[1..], sep)
  }

  lemma {:induction false} JoinAsPrefixed(a: string, rest: seq<string>, sep: string)
    ensures JoinWith([a] + rest, sep) == a + Prefixed(rest, sep)
    decreases |rest|
  {
    if rest != [] {
      assert ([a] + rest)[1..] == rest;
      assert rest == [rest[0]] + rest[1..];
      JoinAsPrefixed(rest[0], rest[1..], sep);
      calc {
        JoinWith([a] + rest, sep);
        a + sep + JoinWith(rest, sep);
        a + sep + (rest[0] + Prefixed(rest[1..], sep));
        a + (sep + rest[0] + Prefixed(rest[1..], sep));
      }
    }
  }

  lemma {:induction false} RenderAfterNamed(path: seq<Frame>, acc: string)
    ensures RenderFrames(path, acc, false) == (acc + Prefixed(FramePieces(path), "."), false)
  {
    if path != [] {
      var pieces := FramePieces(path);
      assert pieces[1..] == FramePieces(path[1..]);
      RenderAfterNamed(path[1..], acc + "." + FramePiece(path[0]));
      assert Prefixed(pieces, ".") == "." + FramePiece(path[0]) + Prefixed(pieces[1..], ".");
      assert RenderFrames(path, acc, false) == RenderFrames(path[1..], acc + "." + FramePiece(path[0]), false);
      assert (acc + "." + FramePiece(path[0])) + Prefixed(pieces[1..], ".")
          == acc + ("." + FramePiece(path[0]) + Prefixed(pieces[1..], "."));
    } else {
      assert acc + "" == acc;
    }
  }

  /** Once the path starts with a named frame (as every path of the handler
      does, since an array's marker always follows the frame for its name),
      the text is the frames' names and indices joined with ".", followed by
      `lastPart` when that is not empty. */
  lemma IndexedPathIsDottedJoin(path: seq<Frame>, lastPart: string)
    requires 0 < |path| && path[0].0 != ArrayMarker
    ensures IndexedPathToString(path, lastPart)
            == JoinWith(FramePieces(path) + (if lastPart == "" then [] else [lastPart]), ".")
  {
    var name := path[0].0;
    var last: seq<string> := if lastPart == "" then [] else [lastPart];
    var tail := FramePieces(path[1..]) + last;
    IndexedPathAsPrefixed(path, lastPart);
    assert FramePieces(path) == [name] + FramePieces(path[1..]);
    assert FramePieces(path) + last == [name] + tail;
    JoinAsPrefixed(name, tail, ".");
    PrefixedAppend(FramePieces(path[1..]), last, ".");
    var p1 := Prefixed(FramePieces(path[1..]), ".");
    var p2 := Prefixed(last, ".");
    ConcatAssoc(name, p1, p2);
  }

  /** The text is the first frame's name followed by the remaining frames
      and the pending key (when there is one), each after a ".". */
  lemma IndexedPathAsPrefixed(path: seq<Frame>, lastPart: string)
    requires 0 < |path| && path[0].0 != ArrayMarker
    ensures IndexedPathToString(path, lastPart)
            == path[0].0 + Prefixed(FramePieces(path[1..]), ".")
               + Prefixed(if lastPart == "" then [] else [lastPart], ".")
  {
    var name := path[0].0;
    assert "" + name == name;
    assert RenderFrames(path, "", true) == RenderFrames(path[1..], name, false);
    RenderAfterNamed(path[1..], name);
    var text := name + Prefixed(FramePieces(path[1..]), ".");
    if lastPart == "" {
      assert text + "" == text;
    } else {
      var last := [lastPart];
      assert last[1..] == [];
      assert Prefixed(last, ".") == "." + lastPart + "";
      assert text + "." + lastPart == text + ("." + lastPart + "");
    }
  }

  lemma {:induction false} PrefixedAppend(p: seq<string>, q: seq<string>, sep: string)
    ensures Prefixed(p + q, sep) == Prefixed(p, sep) + Prefixed(q, sep)
  {
    if p != [] {
      assert (p + q)[0] == p[0];
      assert (p + q)[1..] == p[1..] + q;
      PrefixedAppend(p[1..], q, sep);
      calc {
        Prefixed(p + q, sep);
        sep + p[0] + Prefixed(p[1..] + q, sep);
        sep + p[0] + (Prefixed(p[1..], sep) + Prefixed(q, sep));
        (sep + p[0] + Prefixed(p[1..], sep)) + Prefixed(q, sep);
      }
    } else {
      assert p + q == q;
      assert "" + Prefixed(q, sep) == Prefixed(q, sep);
    }
  }

  // ---------------------------------------------------------------------
  // almostThere
  // ---------------------------------------------------------------------

  /** The location (named frames followed by the pending key) agrees with
      `target` as far as the target goes. */
  predicate OnTheWay(objectPath: seq<string>, lastKey: string, target: seq<string>)
  {
    if |target| <= |objectPath| then objectPath[..|target|] == target
    else |target| == |objectPath| + 1 && objectPath == target[..|objectPath|]
         && lastKey == target[|objectPath|]
  }

  /** The comparison loop: walk both lists together; running out of target
      first is a match, a mismatch is not, and running out of the location
      compares `lastKey` with the next target name (or matches if the target
      ended too). */
  function WalkPaths(objectPath: seq<string>, lastKey: string, target: seq<string>): (r: bool)
    ensures |target| <= |objectPath| + 1 ==> (r <==> OnTheWay(objectPath, lastKey, target))
  {
    if objectPath == [] then target == [] || lastKey == target[0]
    else if target == [] then true
    else if target[0] != objectPath[0] then false
    else
      var r := WalkPaths(objectPath[1..], lastKey, target[1..]);
      assert 0 < |target| <= |objectPath| ==>
               objectPath[..|target|] == [objectPath[0]] + objectPath[1..][..|target| - 1];
      r
  }

  /** `almostThere`: true when `target` is a prefix of the location, or is
      the location followed by the pending key; false whenever the location
      plus the key is shorter than the target. */
  function AlmostThere(objectPath: seq<string>, lastKey: string, target: seq<string>): (r: bool)
    ensures r <==> OnTheWay(objectPath, lastKey, target)
    ensures |objectPath| + 1 < |target| ==> !r
  {
    |objectPath| + 1 >= |target| && WalkPaths(objectPath, lastKey, target)
  }

  /** Two lists that differ at some position within both never match. */
  lemma MismatchRejects(objectPath: seq<string>, lastKey: string, target: seq<string>, i: nat)
    requires i < |objectPath| && i < |target| && objectPath[i] != target[i]
    ensures !AlmostThere(objectPath, lastKey, target)
  {
    if |target| <= |objectPath| {
      assert objectPath[..|target|][i] == objectPath[i];
    } else if |target| == |objectPath| + 1 {
      assert target[..|objectPath|][i] == target[i];
    }
  }

  /** Once inside a matched region, going deeper keeps the match, whatever
      the pending key. */
  lemma DescendingKeepsMatch(objectPath: seq<string>, lastKey: string, target: seq<string>,
                             deeper: seq<string>, key: string)
    requires |target| <= |objectPath| && AlmostThere(objectPath, lastKey, target)
    ensures AlmostThere(objectPath + deeper, key, target)
  {
    assert (objectPath + deeper)[..|target|] == objectPath[..|target|];
  }
}
