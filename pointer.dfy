/**
 * The claim check: the object-storage path that the producer publishes in
 * place of the uploaded file, and the file's base name that becomes the
 * object name.
 *
 * The path has the layout `/n/<namespace>/b/<bucket>/o/<object>`. No field is
 * escaped, so the layout can be read back only when no field holds a '/'.
 */
module Pointer {

  datatype Option<T> = None | Some(value: T)

  /** The three fields a claim check carries. */
  datatype Location = Location(namespace: string, bucket: string, objectName: string)

  /** True when `s` holds no path separator. */
  predicate Flat(s: string) {
    '/' !in s
  }

  /** The path to the object, built by plain concatenation. */
  function PathToObject(ns: string, bucket: string, objectName: string): (p: string)
    ensures |p| == |ns| + |bucket| + |objectName| + 9
    ensures p[..3] == "/n/"
  {
    "/n/" + ns + "/b/" + bucket + "/o/" + objectName
  }

  /** True when `s` is made of separators only. */
  predicate AllSeparators(s: string)
    decreases |s|
  {
    |s| == 0 || (s[|s| - 1] == '/' && AllSeparators(s[..|s| - 1]))
  }

  /**
   * The last '/'-separated segment of a string: the part after the last
   * separator, or the whole string when it has none.
   */
  function LastSegment(path: string): (name: string)
    ensures Flat(name)
    decreases |path|
  {
    if |path| == 0 || path[|path| - 1] == '/' then ""
    else LastSegment(path[..|path| - 1]) + [path[|path| - 1]]
  }

  /**
   * The file name of a path: its last name once trailing separators are
   * dropped, as path normalisation drops them, so `dir/notes.txt` and
   * `dir/notes.txt/` both give `notes.txt`.
   */
  function BaseName(path: string): (name: string)
    ensures Flat(name)
    decreases |path|
  {
    if |path| > 0 && path[|path| - 1] == '/' then BaseName(path[..|path| - 1])
    else LastSegment(path)
  }

  /**
   * The last segment ends the string, and it is either the whole string or
   * preceded by a separator.
   */
  lemma {:induction false} LastSegmentEndsPath(path: string)
    ensures var name := LastSegment(path);
              |name| <= |path| && path[|path| - |name|..] == name &&
              (|name| < |path| ==> path[|path| - |name| - 1] == '/')
    decreases |path|
  {
    if |path| > 0 && path[|path| - 1] != '/' {
      var init := path[..|path| - 1];
      LastSegmentEndsPath(init);
      var r := LastSegment(init);
      assert path == init + [path[|path| - 1]];
      assert path[|path| - |r| - 1..] == init[|init| - |r|..] + [path[|path| - 1]];
    }
  }

  /**
   * Separators after the last name do not count: the file name of `p`
   * followed by separators is the last segment of `p`.
   */
  lemma {:induction false} BaseNameDropsTrailingSeparators(p: string, seps: string)
    requires AllSeparators(seps)
    requires p == [] || p[|p| - 1] != '/'
    ensures BaseName(p + seps) == LastSegment(p)
    decreases |seps|
  {
    if |seps| == 0 {
      assert p + seps == p;
    } else {
      var path := p + seps;
      assert path[|path| - 1] == seps[|seps| - 1];
      assert path[..|path| - 1] == p + seps[..|seps| - 1];
      BaseNameDropsTrailingSeparators(p, seps[..|seps| - 1]);
    }
  }

  /** A separator at the end of a path does not change its file name. */
  lemma BaseNameIgnoresTrailingSeparator(path: string)
    ensures BaseName(path + "/") == BaseName(path)
  {
    var p := path + "/";
    assert p[..|p| - 1] == path;
  }

  /** The file name of `dir/name`, for a non-empty name with no separator, is `name`. */
  lemma BaseNameAfterSeparator(dir: string, name: string)
    requires Flat(name) && name != ""
    ensures BaseName(dir + "/" + name) == name
  {
    var path := dir + "/" + name;
    assert name[|name| - 1] in name;
    assert path[|path| - 1] == name[|name| - 1];
    LastSegmentEndsPath(path);
    assert path[|path| - |name|..] == name;
    assert path[|path| - |name| - 1] == '/';
  }

  /** `/home/u/notes.txt` names the file `notes.txt`, with or without a trailing separator. */
  lemma NotesFileName()
    ensures BaseName("/home/u/notes.txt") == "notes.txt"
    ensures BaseName("/home/u/notes.txt/") == "notes.txt"
  {
    assert "/home/u/notes.txt" == "/home/u" + "/" + "notes.txt";
    BaseNameAfterSeparator("/home/u", "notes.txt");
    assert "/home/u/notes.txt/" == "/home/u/notes.txt" + "/";
    BaseNameIgnoresTrailingSeparator("/home/u/notes.txt");
  }

  // ---- Segments: reading a '/'-separated string back ----

  /** The '/'-separated segments of `s`, as a path splitter reports them. */
  function Split(s: string): (parts: seq<string>)
    ensures |parts| >= 1
    ensures forall i :: 0 <= i < |parts| ==> Flat(parts[i])
    decreases |s|
  {
    if |s| == 0 then [""]
    else
      var rest := Split(s[1..]);
      if s[0] == '/' then [""] + rest
      else [[s[0]] + rest[0]] + rest[1..]
  }

  /** The segments put back together, with '/' between neighbours. */
  function Join(parts: seq<string>): (s: string)
    requires |parts| >= 1
    decreases |parts|
  {
    if |parts| == 1 then parts[0] else parts[0] + "/" + Join(parts[1..])
  }

  /** Splitting loses nothing: joining the segments gives the string back. */
  lemma {:induction false} JoinSplit(s: string)
    ensures Join(Split(s)) == s
    decreases |s|
  {
    if |s| > 0 {
      var rest := Split(s[1..]);
      JoinSplit(s[1..]);
      if s[0] == '/' {
        assert Join([""] + rest) == "" + "/" + Join(rest);
        assert s == "/" + s[1..];
      } else if |rest| == 1 {
        assert Split(s) == [[s[0]] + rest[0]];
        assert s == [s[0]] + s[1..];
      } else {
        var parts := [[s[0]] + rest[0]] + rest[1..];
        assert parts[1..] == rest[1..];
        assert Join(rest) == rest[0] + "/" + Join(rest[1..]);
        assert Join(parts) == ([s[0]] + rest[0]) + "/" + Join(rest[1..]);
        assert s == [s[0]] + s[1..];
      }
    }
  }

  /** A flat string is a single segment. */
  lemma {:induction false} SplitFlat(a: string)
    requires Flat(a)
    ensures Split(a) == [a]
    decreases |a|
  {
    if |a| > 0 {
      assert a[0] in a;
      assert Flat(a[1..]) by {
        forall c | c in a[1..] ensures c in a { }
      }
      SplitFlat(a[1..]);
      assert a == [a[0]] + a[1..];
    }
  }

  /** A flat leading segment followed by a separator splits off as one segment. */
  lemma {:induction false} SplitCons(a: string, b: string)
    requires Flat(a)
    ensures Split(a + "/" + b) == [a] + Split(b)
    decreases |a|
  {
    var s := a + "/" + b;
    if |a| == 0 {
      assert s == "/" + b && s[1..] == b;
    } else {
      assert a[0] in a;
      assert Flat(a[1..]) by {
        forall c | c in a[1..] ensures c in a { }
      }
      assert s[1..] == a[1..] + "/" + b;
      SplitCons(a[1..], b);
      assert a == [a[0]] + a[1..];
    }
  }

  /** The path, regrouped as the layout's seven segments with a separator between neighbours. */
  lemma PathGrouped(ns: string, bucket: string, objectName: string)
    ensures PathToObject(ns, bucket, objectName) ==
            "" + "/" + ("n" + "/" + (ns + "/" + ("b" + "/" + (bucket + "/" + ("o" + "/" + objectName)))))
  {
    assert "/o/" + objectName == "/" + ("o" + "/" + objectName);
    assert "/b/" + bucket == "/" + ("b" + "/" + bucket);
    assert "/n/" + ns == "" + "/" + ("n" + "/" + ns);
  }

  /** With flat fields, the path splits into exactly the layout's seven segments. */
  lemma PathSegments(ns: string, bucket: string, objectName: string)
    requires Flat(ns) && Flat(bucket) && Flat(objectName)
    ensures Split(PathToObject(ns, bucket, objectName)) == ["", "n", ns, "b", bucket, "o", objectName]
  {
    var t5 := "o" + "/" + objectName;
    var t4 := bucket + "/" + t5;
    var t3 := "b" + "/" + t4;
    var t2 := ns + "/" + t3;
    var t1 := "n" + "/" + t2;
    PathGrouped(ns, bucket, objectName);
    SplitFlat(objectName);
    SplitCons("o", objectName);
    SplitCons(bucket, t5);
    SplitCons("b", t4);
    SplitCons(ns, t3);
    SplitCons("n", t2);
    SplitCons("", t1);
  }

  /** The path is the join of the seven layout segments. */
  lemma PathIsJoin(ns: string, bucket: string, objectName: string)
    ensures PathToObject(ns, bucket, objectName) == Join(["", "n", ns, "b", bucket, "o", objectName])
  {
    var parts := ["", "n", ns, "b", bucket, "o", objectName];
    assert Join(parts[6..]) == objectName;
    assert Join(parts[5..]) == "o" + "/" + objectName;
    assert Join(parts[4..]) == bucket + "/" + Join(parts[5..]);
    assert Join(parts[3..]) == "b" + "/" + Join(parts[4..]);
    assert Join(parts[2..]) == ns + "/" + Join(parts[3..]);
    assert Join(parts[1..]) == "n" + "/" + Join(parts[2..]);
    assert Join(parts) == "" + "/" + Join(parts[1..]);
  }

  /**
   * Reads a path in the layout back into its three fields; `None` when the
   * string does not have the seven segments `"", "n", _, "b", _, "o", _`.
   */
  function FieldsOf(p: string): (r: Option<Location>)
    ensures r.Some? ==> Flat(r.value.namespace) && Flat(r.value.bucket) && Flat(r.value.objectName)
    ensures r.Some? ==> PathToObject(r.value.namespace, r.value.bucket, r.value.objectName) == p
  {
    var parts := Split(p);
    if |parts| == 7 && parts[0] == "" && parts[1] == "n" && parts[3] == "b" && parts[5] == "o" then
      JoinSplit(p);
      PathIsJoin(parts[2], parts[4], parts[6]);
      assert parts == ["", "n", parts[2], "b", parts[4], "o", parts[6]];
      Some(Location(parts[2], parts[4], parts[6]))
    else
      None
  }

  /** Round trip: a claim check with flat fields reads back to exactly those fields. */
  lemma RoundTrip(ns: string, bucket: string, objectName: string)
    requires Flat(ns) && Flat(bucket) && Flat(objectName)
    ensures FieldsOf(PathToObject(ns, bucket, objectName)) == Some(Location(ns, bucket, objectName))
  {
    PathSegments(ns, bucket, objectName);
  }

  /** Distinct flat triples give distinct claim checks. */
  lemma PathInjective(a: Location, b: Location)
    requires Flat(a.namespace) && Flat(a.bucket) && Flat(a.objectName)
    requires Flat(b.namespace) && Flat(b.bucket) && Flat(b.objectName)
    requires a != b
    ensures PathToObject(a.namespace, a.bucket, a.objectName) != PathToObject(b.namespace, b.bucket, b.objectName)
  {
    RoundTrip(a.namespace, a.bucket, a.objectName);
    RoundTrip(b.namespace, b.bucket, b.objectName);
  }

  /** The claim check for `notes.txt` in bucket `my-bucket` of namespace `ns1`. */
  lemma NotesPointer()
    ensures PathToObject("ns1", "my-bucket", "notes.txt") == "/n/ns1/b/my-bucket/o/notes.txt"
  {
  }

  /** Without flat fields the layout is ambiguous: two different triples share one path. */
  lemma SeparatorCollision()
    ensures PathToObject("x/b/y", "z", "w") == PathToObject("x", "y/b/z", "w")
  {
  }
}
