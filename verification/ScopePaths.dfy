/** Path lists of a scope file: their normalisation and the test of a URL against them. */
module ScopePaths {
  import opened Common

  // ----- strings -----

  /** The characters that str.strip removes. */
  predicate Space(c: char) {
    var n := c as int;
    9 <= n <= 13 || 28 <= n <= 32 || n == 133 || n == 160 || n == 5760 || 8192 <= n <= 8202
    || n == 8232 || n == 8233 || n == 8239 || n == 8287 || n == 12288
  }

  function StripLeft(s: string): string {
    if s != "" && Space(s[0]) then StripLeft(s[1..]) else s
  }

  function StripRight(s: string): string {
    if s != "" && Space(s[|s| - 1]) then StripRight(s[..|s| - 1]) else s
  }

  /** str.strip. */
  function Strip(s: string): string {
    StripRight(StripLeft(s))
  }

  /** str.rstrip("/"). */
  function Stem(s: string): string {
    if s != "" && s[|s| - 1] == '/' then Stem(s[..|s| - 1]) else s
  }

  /** str.lstrip("/"). */
  function Unrooted(s: string): string {
    if s != "" && s[0] == '/' then Unrooted(s[1..]) else s
  }

  predicate At(s: string, part: string, i: nat) {
    i + |part| <= |s| && s[i..i + |part|] == part
  }

  predicate Contains(s: string, part: string) {
    exists i: nat :: i <= |s| && At(s, part, i)
  }

  /** Order by code point. */
  predicate Below(a: string, b: string) {
    if b == "" then false
    else if a == "" then true
    else a[0] < b[0] || (a[0] == b[0] && Below(a[1..], b[1..]))
  }

  function Insert(x: string, s: seq<string>): seq<string> {
    if s == [] || Below(x, s[0]) then [x] + s
    else if x == s[0] then s
    else [s[0]] + Insert(x, s[1..])
  }

  /** sorted(set(s)). */
  function SortedSet(s: seq<string>): seq<string> {
    if s == [] then [] else Insert(s[0], SortedSet(s[1..]))
  }

  function Split(s: string): seq<string> {
    if |s| == 0 then [""]
    else if s[0] == ';' then [""] + Split(s[1..])
    else [[s[0]] + Split(s[1..])[0]] + Split(s[1..])[1..]
  }

  // ----- _paths -----

  datatype PathsValue = Missing | Text(text: string) | Items(items: seq<string>) | Malformed

  datatype PathsError = NotAnArray | InvalidPath(item: string)

  predicate ValidPath(path: string) {
    path != "" && path[0] == '/' && !Contains(path, "//") && !Contains("/" + Unrooted(path) + "/", "/../")
  }

  function Trim(path: string): string {
    if Stem(path) == "" then "/" else Stem(path)
  }

  function Trimmed(items: seq<string>): seq<string> {
    seq(|items|, i requires 0 <= i < |items| => Trim(Strip(items[i])))
  }

  ghost predicate AllValid(items: seq<string>) {
    forall i :: 0 <= i < |items| ==> ValidPath(Strip(items[i]))
  }

  /** The items a value stands for, before each is normalised. */
  function ItemsOf(value: PathsValue): Option<seq<string>> {
    match value
    case Missing => Some([])
    case Text(text) => Some(if text == "" then [] else Split(text))
    case Items(items) => Some(items)
    case Malformed => None
  }

  method Paths(value: PathsValue) returns (r: Result<seq<string>, PathsError>)
    ensures r == Err(NotAnArray) <==> ItemsOf(value) == None
    ensures r.Ok? <==> ItemsOf(value) != None && AllValid(ItemsOf(value).value)
    ensures r.Ok? ==> r.value == SortedSet(Trimmed(ItemsOf(value).value))
    ensures r.Err? && ItemsOf(value) != None ==>
              exists k :: 0 <= k < |ItemsOf(value).value| && AllValid(ItemsOf(value).value[..k])
                          && !ValidPath(Strip(ItemsOf(value).value[k]))
                          && r.error == InvalidPath(ItemsOf(value).value[k])
  {
    if value == Malformed {
      return Err(NotAnArray);
    }
    var items := ItemsOf(value).value;
    var normalized := [];
    for k := 0 to |items|
      invariant AllValid(items[..k]) && normalized == Trimmed(items[..k])
    {
      var path := Strip(items[k]);
      if !ValidPath(path) {
        return Err(InvalidPath(items[k]));
      }
      normalized := normalized + [Trim(path)];
      assert items[..k + 1] == items[..k] + [items[k]];
    }
    assert items[..|items|] == items;
    r := Ok(SortedSet(normalized));
  }

  // ----- the same, told by characters -----

  ghost predicate AllSpace(s: string) {
    forall i :: 0 <= i < |s| ==> Space(s[i])
  }

  /** Stripping takes whitespace off both ends, and all of it. */
  lemma StripMeaning(s: string) returns (left: string, right: string)
    ensures s == left + Strip(s) + right && AllSpace(left) && AllSpace(right)
    ensures Strip(s) != "" ==> !Space(Strip(s)[0]) && !Space(Strip(s)[|Strip(s)| - 1])
  {
    left := StripLeftMeaning(s);
    right := StripRightMeaning(StripLeft(s));
    var rest, r := StripLeft(s), Strip(s);
    assert rest == r + right;
    assert s == left + r + right;
    assert r != "" ==> r[0] == rest[0];
  }

  lemma {:induction false} StripLeftMeaning(s: string) returns (left: string)
    ensures s == left + StripLeft(s) && AllSpace(left) && (StripLeft(s) != "" ==> !Space(StripLeft(s)[0]))
  {
    if s != "" && Space(s[0]) {
      var first, rest := s[0], s[1..];
      assert s == [first] + rest && StripLeft(s) == StripLeft(rest);
      hide StripLeft, Space;
      var more := StripLeftMeaning(rest);
      left := [first] + more;
      assert ([first] + more) + StripLeft(rest) == [first] + (more + StripLeft(rest));
    } else {
      left := "";
    }
  }

  lemma {:induction false} StripRightMeaning(s: string) returns (right: string)
    ensures s == StripRight(s) + right && AllSpace(right)
    ensures StripRight(s) != "" ==> !Space(StripRight(s)[|StripRight(s)| - 1])
  {
    if s != "" && Space(s[|s| - 1]) {
      var init, last := s[..|s| - 1], s[|s| - 1];
      assert s == init + [last] && StripRight(s) == StripRight(init);
      hide StripRight, Space;
      var more := StripRightMeaning(init);
      right := more + [last];
      assert StripRight(init) + (more + [last]) == (StripRight(init) + more) + [last];
    } else {
      right := "";
    }
  }

  /** The parts, with a semicolon between each two of them. */
  function Joined(parts: seq<string>): string {
    if parts == [] then "" else if |parts| == 1 then parts[0] else parts[0] + ";" + Joined(parts[1..])
  }

  /** Splitting cuts at every semicolon and drops nothing else. */
  lemma {:induction false} SplitMeaning(s: string)
    ensures Split(s) != [] && Joined(Split(s)) == s && forall k :: 0 <= k < |Split(s)| ==> ';' !in Split(s)[k]
  {
    if s != "" {
      SplitMeaning(s[1..]);
      var rest := Split(s[1..]);
      assert s == [s[0]] + s[1..];
      if s[0] == ';' {
        assert Split(s) == [""] + rest && ([""] + rest)[1..] == rest;
        assert Joined(Split(s)) == "" + ";" + Joined(rest);
      } else {
        JoinedHead(s[0], rest);
        assert Split(s) == [[s[0]] + rest[0]] + rest[1..];
        forall k | 0 <= k < |Split(s)|
          ensures ';' !in Split(s)[k]
        {
          assert Split(s)[k] == if k == 0 then [s[0]] + rest[0] else rest[k];
        }
      }
    }
  }

  lemma JoinedHead(c: char, parts: seq<string>)
    requires parts != []
    ensures Joined([[c] + parts[0]] + parts[1..]) == [c] + Joined(parts)
  {
    var more := [[c] + parts[0]] + parts[1..];
    assert |more| == |parts| && more[0] == [c] + parts[0] && more[1..] == parts[1..];
    if |parts| > 1 {
      var tail := Joined(parts[1..]);
      assert Joined(more) == more[0] + ";" + tail && Joined(parts) == parts[0] + ";" + tail;
      hide Joined;
      Regroup(c, parts[0], tail);
    }
  }

  lemma Regroup(c: char, s: string, tail: string)
    ensures ([c] + s) + ";" + tail == [c] + (s + ";" + tail)
  {
  }

  /** The strings agree up to `k`, where `a` ends or has the smaller character. */
  predicate DiffersAt(a: string, b: string, k: nat) {
    k <= |a| && k < |b| && a[..k] == b[..k] && (k == |a| || a[k] as int < b[k] as int)
  }

  lemma {:induction false} BelowMeaning(a: string, b: string)
    ensures Below(a, b) <==> exists k: nat :: DiffersAt(a, b, k)
  {
    if a == "" || b == "" {
      assert a == "" && b != "" ==> DiffersAt(a, b, 0);
    } else {
      BelowMeaning(a[1..], b[1..]);
      assert Below(a, b) <==> a[0] < b[0] || (a[0] == b[0] && Below(a[1..], b[1..]));
      hide Below, DiffersAt;
      if a[0] < b[0] {
        DiffersFirst(a, b);
      }
      if k: nat :| DiffersAt(a[1..], b[1..], k) {
        DiffersLater(a, b, k + 1);
      }
      if k: nat :| DiffersAt(a, b, k) {
        if k == 0 {
          DiffersFirst(a, b);
        } else {
          DiffersLater(a, b, k);
        }
      }
    }
  }

  lemma DiffersFirst(a: string, b: string)
    requires a != "" && b != ""
    ensures DiffersAt(a, b, 0) <==> a[0] < b[0]
  {
  }

  lemma DiffersLater(a: string, b: string, k: nat)
    requires a != "" && b != "" && k > 0
    ensures DiffersAt(a, b, k) <==> a[0] == b[0] && DiffersAt(a[1..], b[1..], k - 1)
  {
    var a', b' := a[1..], b[1..];
    if k <= |a| && k <= |b| {
      assert a[..k] == [a[0]] + a'[..k - 1] && b[..k] == [b[0]] + b'[..k - 1];
      assert a[..k][0] == a[0] && b[..k][0] == b[0] && a[..k][1..] == a'[..k - 1] && b[..k][1..] == b'[..k - 1];
    }
  }

  // ----- what normalisation gives -----

  lemma {:induction false} StripKeeps(s: string)
    ensures |StripRight(s)| <= |s|
    ensures StripRight(s) <= s
    ensures |StripRight(s)| == |s| ==> StripRight(s) == s && (s != "" ==> !Space(s[|s| - 1]))
  {
    if s != "" && Space(s[|s| - 1]) {
      StripKeeps(s[..|s| - 1]);
    }
  }

  lemma {:induction false} StemMeaning(s: string)
    ensures Stem(s) <= s
    ensures Stem(s) == "" || Stem(s)[|Stem(s)| - 1] != '/'
    ensures forall i :: |Stem(s)| <= i < |s| ==> s[i] == '/'
  {
    if s != "" && s[|s| - 1] == '/' {
      StemMeaning(s[..|s| - 1]);
    }
  }

  /** A valid path loses at most one slash. */
  lemma TrimMeaning(path: string)
    requires ValidPath(path)
    ensures Trim(path) == "/" || (Trim(path) == path && path[|path| - 1] != '/') || Trim(path) + "/" == path
  {
    StemMeaning(path);
    var stem := Stem(path);
    if stem != "" && |stem| < |path| - 1 {
      assert At(path, "//", |stem|);
    }
    if stem != "" && |stem| == |path| - 1 {
      assert stem == path[..|stem|] && path == stem + [path[|stem|]];
    }
  }

  lemma PrefixContains(s: string, t: string, part: string)
    requires s <= t && Contains(s, part)
    ensures Contains(t, part)
  {
    var i: nat :| i <= |s| && At(s, part, i);
    assert At(t, part, i);
  }

  lemma {:induction false} UnrootedPrefix(s: string, t: string)
    requires s <= t && s != "" && Unrooted(s) != ""
    ensures Unrooted(t) == Unrooted(s) + t[|s|..]
  {
    if s[0] == '/' {
      UnrootedPrefix(s[1..], t[1..]);
    } else {
      assert t == s + t[|s|..];
    }
  }

  /** A normalised path is valid, and normalising it again returns it, unless it ends in whitespace. */
  lemma TrimIsStable(path: string)
    requires ValidPath(path)
    ensures ValidPath(Trim(path)) && Trim(Trim(path)) == Trim(path)
  {
    var t := Trim(path);
    TrimMeaning(path);
    if t == "/" {
      RootIsValid();
    } else if t + "/" == path {
      StemMeaning(path);
      assert t <= path;
      if Contains(t, "//") {
        PrefixContains(t, path, "//");
      }
      OneMoreSlash(t);
      if Contains("/" + Unrooted(t) + "/", "/../") {
        PrefixContains("/" + Unrooted(t) + "/", "/" + Unrooted(path) + "/", "/../");
      }
    }
  }

  lemma RootIsValid()
    ensures ValidPath("/") && Trim("/") == "/"
  {
    assert Unrooted("/") == Unrooted(""[..]) == "";
    assert "/"[..0] == "";
    assert Stem("/") == Stem("") == "";
  }

  lemma OneMoreSlash(t: string)
    requires t != "" && t[0] == '/' && t[|t| - 1] != '/'
    ensures "/" + Unrooted(t) + "/" <= "/" + Unrooted(t + "/") + "/"
  {
    hide Unrooted;
    UnrootedNotEmpty(t);
    UnrootedPrefix(t, t + "/");
    assert (t + "/")[|t|..] == "/";
    Wrapped(Unrooted(t));
  }

  lemma Wrapped(u: string)
    ensures "/" + u + "/" <= "/" + (u + "/") + "/"
  {
    assert "/" + (u + "/") + "/" == ("/" + u + "/") + "/";
  }

  lemma {:induction false} UnrootedNotEmpty(t: string)
    requires t != "" && t[|t| - 1] != '/'
    ensures Unrooted(t) != ""
  {
    if t[0] == '/' {
      UnrootedNotEmpty(t[1..]);
    }
  }

  predicate EndsInSpace(s: string) {
    s != "" && Space(s[|s| - 1])
  }

  lemma StripRooted(s: string)
    requires s != "" && s[0] == '/'
    ensures Strip(s) == s <==> !EndsInSpace(s)
    ensures EndsInSpace(s) ==> |Strip(s)| < |s|
  {
    assert StripLeft(s) == s;
    StripKeeps(s);
  }

  /** The normal form ends in whitespace exactly when the stripped item ended in whitespace and a slash. */
  lemma EndsInSpaceExactlyWhen(path: string)
    requires ValidPath(path) && !EndsInSpace(path)
    ensures EndsInSpace(Trim(path)) <==> |path| >= 2 && path[|path| - 1] == '/' && Space(path[|path| - 2])
  {
    TrimMeaning(path);
    StemMeaning(path);
  }

  // ----- sorted sets -----

  ghost predicate Increasing(s: seq<string>) {
    forall i, j :: 0 <= i < j < |s| ==> Below(s[i], s[j])
  }

  lemma {:induction false} BelowOrder(a: string, b: string, c: string)
    ensures !Below(a, a)
    ensures Below(a, b) || a == b || Below(b, a)
    ensures Below(a, b) && Below(b, c) ==> Below(a, c)
  {
    if a != "" {
      BelowOrder(a[1..], if b != "" then b[1..] else "", if c != "" then c[1..] else "");
      if b != "" && a[0] == b[0] {
        assert a == [a[0]] + a[1..] && b == [b[0]] + b[1..];
      }
    }
  }

  lemma {:induction false} InsertMeaning(x: string, s: seq<string>)
    requires Increasing(s)
    ensures Increasing(Insert(x, s)) && SetOf(Insert(x, s)) == SetOf(s) + {x}
  {
    hide Below;
    if s != [] {
      BelowOrder(x, s[0], x);
      if Below(x, s[0]) {
        forall j | 0 <= j < |s| ensures Below(x, s[j]) {
          BelowOrder(x, s[0], s[j]);
        }
      } else if x != s[0] {
        InsertMeaning(x, s[1..]);
        InsertAfter(x, s, Insert(x, s[1..]));
      }
    }
  }

  lemma InsertAfter(x: string, s: seq<string>, tail: seq<string>)
    requires s != [] && Increasing(s) && Increasing(tail) && Below(s[0], x) && SetOf(tail) == SetOf(s[1..]) + {x}
    ensures Increasing([s[0]] + tail) && SetOf([s[0]] + tail) == SetOf(s) + {x}
  {
    hide Below;
    forall j | 0 <= j < |tail| ensures Below(s[0], tail[j]) {
      assert tail[j] in SetOf(tail);
    }
    assert s == [s[0]] + s[1..];
    assert SetOf([s[0]] + tail) == {s[0]} + SetOf(tail);
    assert SetOf(s) == {s[0]} + SetOf(s[1..]);
  }

  lemma {:induction false} SortedSetMeaning(s: seq<string>)
    ensures Increasing(SortedSet(s)) && SetOf(SortedSet(s)) == SetOf(s)
  {
    if s != [] {
      SortedSetMeaning(s[1..]);
      InsertMeaning(s[0], SortedSet(s[1..]));
      assert s == [s[0]] + s[1..];
      assert SetOf(s) == {s[0]} + SetOf(s[1..]);
    }
  }

  lemma {:induction false} SortedSetOfIncreasing(s: seq<string>)
    requires Increasing(s)
    ensures SortedSet(s) == s
  {
    if s != [] {
      SortedSetOfIncreasing(s[1..]);
      assert s == [s[0]] + s[1..];
      assert s[1..] != [] ==> Below(s[0], s[1..][0]);
    }
  }

  // ----- normalising twice -----

  ghost predicate Normalised(paths: seq<string>) {
    Increasing(paths) && forall n :: n in paths ==> ValidPath(n) && Trim(n) == n
  }

  /** What _paths returns is normalised. */
  lemma OutputIsNormalised(items: seq<string>)
    requires AllValid(items)
    ensures Normalised(SortedSet(Trimmed(items)))
  {
    SortedSetMeaning(Trimmed(items));
    forall n | n in SortedSet(Trimmed(items))
      ensures ValidPath(n) && Trim(n) == n
    {
      assert n in SetOf(Trimmed(items));
      var i :| 0 <= i < |items| && Trimmed(items)[i] == n;
      TrimIsStable(Strip(items[i]));
    }
  }

  lemma {:induction false} LongestSpaced(paths: seq<string>) returns (w: string)
    requires exists n :: n in paths && EndsInSpace(n)
    ensures w in paths && EndsInSpace(w) && forall n :: n in paths && EndsInSpace(n) ==> |n| <= |w|
  {
    var rest := paths[1..];
    assert paths == [paths[0]] + rest;
    assert forall n :: n in paths <==> n == paths[0] || n in rest;
    if exists n :: n in rest && EndsInSpace(n) {
      w := LongestSpaced(rest);
      if EndsInSpace(paths[0]) && |paths[0]| > |w| {
        w := paths[0];
      }
    } else {
      w := paths[0];
    }
  }

  /** Normalising a path that ends in whitespace shortens it. */
  lemma ShrinksBelow(n: string)
    requires n != "" && n[0] == '/' && EndsInSpace(n) && EndsInSpace(Trim(Strip(n)))
    ensures |Trim(Strip(n))| < |n|
  {
    StripRooted(n);
    StemMeaning(Strip(n));
  }

  lemma SpacedListChanges(paths: seq<string>)
    requires Normalised(paths) && AllValid(paths) && exists n :: n in paths && EndsInSpace(n)
    ensures SortedSet(Trimmed(paths)) != paths
  {
    var w := LongestSpaced(paths);
    SortedSetMeaning(Trimmed(paths));
    if SortedSet(Trimmed(paths)) == paths {
      assert w in SetOf(Trimmed(paths));
      var i :| 0 <= i < |paths| && Trimmed(paths)[i] == w;
      NoLongerSource(paths[i], w);
    }
  }

  lemma NoLongerSource(n: string, w: string)
    requires ValidPath(n) && Trim(n) == n && Trim(Strip(n)) == w && EndsInSpace(w)
    ensures EndsInSpace(n) && |w| < |n|
  {
    StripRooted(n);
    if EndsInSpace(n) {
      ShrinksBelow(n);
    }
  }

  /** Re-normalising a normalised list gives it back exactly when none of its paths ends in whitespace. */
  lemma StableExactlyWhenNoneEndsInSpace(paths: seq<string>)
    requires Normalised(paths)
    ensures AllValid(paths) && SortedSet(Trimmed(paths)) == paths <==> forall n :: n in paths ==> !EndsInSpace(n)
  {
    if forall n :: n in paths ==> !EndsInSpace(n) {
      forall i | 0 <= i < |paths|
        ensures Strip(paths[i]) == paths[i] && ValidPath(paths[i]) && Trim(paths[i]) == paths[i]
      {
        assert paths[i] in paths;
        StripRooted(paths[i]);
      }
      assert Trimmed(paths) == paths;
      SortedSetOfIncreasing(paths);
    } else if AllValid(paths) {
      SpacedListChanges(paths);
    }
  }

  /** Twice is not once: "/a /" normalises to "/a ", and that to "/a". */
  lemma NormalisingTwiceCanDiffer()
    ensures ValidPath(Strip("/a /")) && Trim(Strip("/a /")) == "/a "
    ensures ValidPath(Strip("/a ")) && Trim(Strip("/a ")) == "/a"
  {
    assert StripLeft("/a /") == "/a /" && StripRight("/a /") == "/a /";
    assert "/a /"[..3] == "/a " && Stem("/a ") == "/a ";
    assert "/a /"[1..] == "a /" && Unrooted("a /") == "a /";
    assert StripLeft("/a ") == "/a " && "/a "[..2] == "/a" && StripRight("/a") == "/a";
    assert "/a"[1..] == "a" && Unrooted("a") == "a";
    assert "/" + "a /" + "/" == "/a //" && "/" + "a" + "/" == "/a/";
    WithoutDots("/a //");
    WithoutDots("/a/");
    WithoutDoubleSlash("/a /");
    WithoutDoubleSlash("/a");
  }

  lemma WithoutDots(s: string)
    requires '.' !in s
    ensures !Contains(s, "/../")
  {
    if Contains(s, "/../") {
      var i: nat :| i <= |s| && At(s, "/../", i);
      HoldsAt(s, "/../", i, 1);
    }
  }

  lemma HoldsAt(s: string, part: string, i: nat, k: nat)
    requires At(s, part, i) && k < |part|
    ensures i + k < |s| && s[i + k] == part[k]
  {
    assert s[i..i + |part|][k] == s[i + k];
  }

  lemma WithoutDoubleSlash(s: string)
    requires forall i :: 0 <= i < |s| - 1 ==> s[i] != '/' || s[i + 1] != '/'
    ensures !Contains(s, "//")
  {
    if Contains(s, "//") {
      var i: nat :| i <= |s| && At(s, "//", i);
      HoldsAt(s, "//", i, 0);
      HoldsAt(s, "//", i, 1);
    }
  }

  // ----- path_is_in_scope -----

  datatype Origin = Origin(scheme: string, host: string, port: nat)

  datatype Url = Url(scheme: string, host: string, port: Option<nat>, path: string)

  datatype Scope = Scope(target: Url, excluded: seq<string>, allowed: seq<string>)

  /** A missing port, and port zero, read as the port of the scheme. */
  function OriginOf(u: Url): Origin {
    Origin(u.scheme, u.host,
           if u.port != None && u.port.value != 0 then u.port.value else if u.scheme == "https" then 443 else 80)
  }

  predicate Covers(prefix: string, path: string) {
    path == prefix || Stem(prefix) + "/" <= path
  }

  predicate InScope(u: Url, scope: Option<Scope>) {
    scope == None
    || (var path := if u.path == "" then "/" else u.path;
        && OriginOf(u) == OriginOf(scope.value.target)
        && !(exists e :: e in scope.value.excluded && Covers(e, path))
        && (exists a :: a in scope.value.allowed && Covers(a, path)))
  }

  function NextSlash(s: string): (k: nat)
    ensures k <= |s| && (k < |s| ==> s[k] == '/') && forall i :: 0 <= i < k ==> s[i] != '/'
  {
    if s == "" || s[0] == '/' then 0 else 1 + NextSlash(s[1..])
  }

  predicate Rooted(s: string) {
    s == "" || s[0] == '/'
  }

  function First(s: string): string
    requires s != ""
  {
    s[1..1 + NextSlash(s[1..])]
  }

  function Rest(s: string): (r: string)
    requires s != ""
    ensures Rooted(r) && |r| < |s|
  {
    s[1 + NextSlash(s[1..])..]
  }

  /** The segments of a rooted path, as in section 3.3 of RFC 3986; the empty path has none. */
  function Segments(s: string): seq<string>
    requires Rooted(s)
    decreases |s|
  {
    if s == "" then [] else [First(s)] + Segments(Rest(s))
  }

  /** `p` is `s`, or continues it after a slash. */
  predicate Continues(p: string, s: string) {
    p == s || s + "/" <= p
  }

  /** One path continues another exactly when its segments begin with the other's. */
  lemma {:induction false} PrefixBySegments(s: string, p: string)
    requires Rooted(s) && Rooted(p)
    ensures Continues(p, s) <==> Segments(s) <= Segments(p)
    decreases |s|
  {
    if s == "" || p == "" {
      assert "" + "/" == "/";
    } else {
      hide Continues, First, Rest;
      PrefixBySegments(Rest(s), Rest(p));
      if First(s) == First(p) {
        ConsPrefix(First(s), Segments(Rest(s)), Segments(Rest(p)));
        SameFirst(s, p);
      } else {
        OtherFirst(s, p);
        assert Segments(s)[0] == First(s) && Segments(p)[0] == First(p);
      }
    }
  }

  lemma SameFirst(s: string, p: string)
    requires Rooted(s) && Rooted(p) && s != "" && p != "" && First(s) == First(p)
    ensures Continues(p, s) <==> Continues(Rest(p), Rest(s))
  {
    var k := NextSlash(s[1..]);
    assert |First(s)| == k && |First(p)| == NextSlash(p[1..]);
    var head := s[..1 + k];
    assert head == ['/'] + First(s) == ['/'] + First(p) == p[..1 + k];
    assert s == head + Rest(s) && p == head + Rest(p);
    SameHead(head, Rest(s), Rest(p));
  }

  lemma OtherFirst(s: string, p: string)
    requires Rooted(s) && Rooted(p) && s != "" && p != "" && First(s) != First(p)
    ensures !Continues(p, s)
  {
    if s + "/" <= p {
      FirstSegment(s, p);
    }
  }

  lemma ConsPrefix(x: string, s: seq<string>, p: seq<string>)
    ensures [x] + s <= [x] + p <==> s <= p
  {
    assert ([x] + s)[1..] == s && ([x] + p)[1..] == p;
    if [x] + s <= [x] + p {
      assert p[..|s|] == ([x] + p)[1..1 + |s|];
    }
  }

  lemma SameHead(head: string, s: string, p: string)
    ensures head + s == head + p <==> s == p
    ensures head + s + "/" <= head + p <==> s + "/" <= p
  {
    assert (head + s)[|head|..] == s && (head + p)[|head|..] == p;
    assert head + s + "/" == head + (s + "/");
    if s + "/" <= p {
      assert head + (s + "/") <= head + p;
    }
    if head + s + "/" <= head + p {
      assert (head + p)[..|head + s + "/"|] == head + (s + "/");
      assert p[..|s + "/"|] == (head + p)[|head|..|head + s + "/"|];
    }
  }

  lemma FirstSegment(s: string, p: string)
    requires s != "" && s[0] == '/' && s + "/" <= p
    ensures First(s) == First(p)
  {
    var k, m := NextSlash(s[1..]), NextSlash(p[1..]);
    assert forall i :: 0 <= i < |s| ==> s[i] == p[i];
    assert p[|s|] == '/';
    assert p[1..][k] == '/';
    assert forall i :: 0 <= i < k ==> p[1..][i] == s[1..][i];
  }

  lemma StemIsRooted(prefix: string)
    requires prefix != "" && prefix[0] == '/'
    ensures Rooted(Stem(prefix))
  {
    StemMeaning(prefix);
  }

  /** For a normalised path, the string test is the prefix test on path segments. */
  lemma CoversIsSegmentPrefix(prefix: string, path: string)
    requires ValidPath(prefix) && Trim(prefix) == prefix && path != "" && path[0] == '/'
    ensures Rooted(Stem(prefix)) && (Covers(prefix, path) <==> Segments(Stem(prefix)) <= Segments(path))
  {
    StemIsRooted(prefix);
    PrefixBySegments(Stem(prefix), path);
    if Stem(prefix) == "" {
      assert prefix == "/" && "" + "/" == "/";
    }
  }

  ghost predicate Within(prefixes: seq<string>, path: string)
    requires Rooted(path) && forall a :: a in prefixes ==> Rooted(Stem(a))
  {
    exists a :: a in prefixes && Segments(Stem(a)) <= Segments(path)
  }

  lemma NormalisedIsRooted(paths: seq<string>)
    requires Normalised(paths)
    ensures forall a :: a in paths ==> Rooted(Stem(a))
  {
    forall a | a in paths ensures Rooted(Stem(a)) {
      StemIsRooted(a);
    }
  }

  // ----- paths, told by their segments -----

  /** The segments, each after a slash. */
  function Glued(segments: seq<string>): string {
    if segments == [] then "" else "/" + segments[0] + Glued(segments[1..])
  }

  /** A rooted path is a slash, its first segment and a rooted rest. */
  lemma FirstAndRest(s: string)
    requires Rooted(s) && s != ""
    ensures s == "/" + First(s) + Rest(s) && Rooted(Rest(s)) && '/' !in First(s)
  {
    var k := NextSlash(s[1..]);
    assert s[1..] == First(s) + Rest(s);
    assert forall i :: 0 <= i < k ==> First(s)[i] == s[1..][i];
  }

  lemma {:induction false} SegmentsMeaning(s: string)
    requires Rooted(s)
    ensures Glued(Segments(s)) == s && forall k :: 0 <= k < |Segments(s)| ==> '/' !in Segments(s)[k]
    decreases |s|
  {
    if s != "" {
      FirstAndRest(s);
      SegmentsMeaning(Rest(s));
      hide First, Rest, Rooted;
      var segments, rest := Segments(s), Segments(Rest(s));
      assert segments == [First(s)] + rest && segments[1..] == rest;
    }
  }

  predicate SlashesAt(s: string, i: nat) {
    i + 1 < |s| && s[i] == '/' && s[i + 1] == '/'
  }

  predicate DotsAt(s: string, i: nat) {
    i + 3 < |s| && s[i] == '/' && s[i + 1] == '.' && s[i + 2] == '.' && s[i + 3] == '/'
  }

  lemma ContainsByCharacters(s: string)
    ensures Contains(s, "//") <==> exists i: nat :: SlashesAt(s, i)
    ensures Contains(s, "/../") <==> exists i: nat :: DotsAt(s, i)
  {
    if i: nat :| i <= |s| && At(s, "//", i) {
      HoldsAt(s, "//", i, 0);
      HoldsAt(s, "//", i, 1);
      assert SlashesAt(s, i);
    }
    if i: nat :| i <= |s| && At(s, "/../", i) {
      HoldsAt(s, "/../", i, 0);
      HoldsAt(s, "/../", i, 1);
      HoldsAt(s, "/../", i, 2);
      HoldsAt(s, "/../", i, 3);
      assert DotsAt(s, i);
    }
    if i: nat :| SlashesAt(s, i) {
      assert s[i..i + 2] == "//";
      assert At(s, "//", i);
    }
    if i: nat :| DotsAt(s, i) {
      assert s[i..i + 4] == "/../";
      assert At(s, "/../", i);
    }
  }

  lemma SlashesInParts(s: string, f: string, r: string)
    requires s == "/" + f + r && Rooted(r) && '/' !in f
    ensures (exists i: nat :: SlashesAt(s, i)) <==> (f == "" && r != "") || exists j: nat :: SlashesAt(r, j)
  {
    var n := 1 + |f|;
    assert forall i :: 0 <= i < |f| ==> f[i] in f;
    assert forall i :: 1 <= i < n ==> s[i] == f[i - 1];
    assert forall j :: 0 <= j < |r| ==> s[n + j] == r[j];
    if i: nat :| SlashesAt(s, i) {
      if i >= n {
        var j: nat := i - n;
        assert SlashesAt(r, j);
      }
    }
    if f == "" && r != "" {
      assert SlashesAt(s, 0);
    }
    if j: nat :| SlashesAt(r, j) {
      assert SlashesAt(s, n + j);
    }
  }

  lemma DotsInParts(t: string, f: string, r: string)
    requires t == "/" + f + r && r != "" && Rooted(r) && '/' !in f
    ensures (exists i: nat :: DotsAt(t, i)) <==> f == ".." || exists j: nat :: DotsAt(r, j)
  {
    var n := 1 + |f|;
    if i: nat :| DotsAt(t, i) {
      if i >= n {
        DotsLater(t, f, r, i - n);
      } else {
        if i > 0 {
          NoSlashInFirst(t, f, r, i);
        }
        DotsFirst(t, f, r);
      }
    }
    if f == ".." {
      assert t[3] == r[0];
      assert DotsAt(t, 0);
    }
    if j: nat :| DotsAt(r, j) {
      DotsLater(t, f, r, j);
    }
  }

  lemma DotsLater(t: string, f: string, r: string, j: nat)
    requires t == "/" + f + r
    ensures DotsAt(t, 1 + |f| + j) <==> DotsAt(r, j)
  {
    assert forall i :: 0 <= i < |r| ==> r[i] == t[1 + |f| + i];
  }

  lemma NoSlashInFirst(t: string, f: string, r: string, i: nat)
    requires t == "/" + f + r && '/' !in f && 0 < i <= |f|
    ensures t[i] != '/'
  {
    assert t[i] == f[i - 1] && f[i - 1] in f;
  }

  lemma DotsFirst(t: string, f: string, r: string)
    requires t == "/" + f + r && r != "" && Rooted(r) && '/' !in f && DotsAt(t, 0)
    ensures f == ".."
  {
    var n := 1 + |f|;
    assert forall i :: 0 <= i < |f| ==> f[i] in f;
    assert forall i :: 1 <= i < n ==> t[i] == f[i - 1];
    assert t[n] == r[0] == '/';
    assert n == 3;
  }

  /** No segment but the last is empty. */
  predicate NoneEmpty(segments: seq<string>) {
    forall k :: 0 <= k < |segments| - 1 ==> segments[k] != ""
  }

  lemma NoneEmptyCons(first: string, rest: seq<string>)
    ensures NoneEmpty([first] + rest) <==> (first != "" || rest == []) && NoneEmpty(rest)
  {
    var all := [first] + rest;
    assert forall k :: 0 <= k < |rest| ==> rest[k] == all[k + 1];
    if NoneEmpty(all) {
      assert rest != [] ==> all[0] != "";
      assert forall k :: 1 <= k < |all| - 1 ==> all[k] != "";
    }
  }

  lemma {:induction false} SlashesBySegments(s: string)
    requires Rooted(s)
    ensures (exists i: nat :: SlashesAt(s, i)) <==> !NoneEmpty(Segments(s))
    ensures (exists i: nat :: DotsAt(s + "/", i)) <==> ".." in Segments(s)
    decreases |s|
  {
    if s == "" {
      assert s + "/" == "/";
    } else {
      FirstAndRest(s);
      var f, r := First(s), Rest(s);
      SlashesBySegments(r);
      SlashesInParts(s, f, r);
      assert s + "/" == "/" + f + (r + "/");
      assert Rooted(r + "/");
      DotsInParts(s + "/", f, r + "/");
      NoneEmptyCons(f, Segments(r));
      assert Segments(s) == [f] + Segments(r);
      hide First, Rest, NoneEmpty, SlashesAt, DotsAt;
      assert r == "" <==> Segments(r) == [];
    }
  }

  /** A path is accepted exactly when it is absolute, no segment but the last is empty, and none is two dots. */
  lemma ValidBySegments(path: string)
    ensures ValidPath(path)
            <==> path != "" && path[0] == '/' && NoneEmpty(Segments(path)) && ".." !in Segments(path)
  {
    if path != "" && path[0] == '/' {
      SlashesBySegments(path);
      ContainsByCharacters(path);
      if !Contains(path, "//") {
        Framed(path);
        ContainsByCharacters(path + "/");
        hide Contains, SlashesAt, DotsAt, NoneEmpty;
      }
    }
  }

  lemma Framed(path: string)
    requires path != "" && path[0] == '/' && !Contains(path, "//")
    ensures Contains("/" + Unrooted(path) + "/", "/../") <==> Contains(path + "/", "/../")
  {
    if path == "/" {
      RootIsValid();
      WithoutDots("//");
      assert path + "/" == "//" && "/" + "" + "/" == "//" && Unrooted("/") == "";
    } else {
      ContainsByCharacters(path);
      assert !SlashesAt(path, 0);
      assert Unrooted(path) == Unrooted(path[1..]) == path[1..];
      assert "/" + path[1..] == path;
    }
  }

  // ----- origins, told by their ports -----

  /** The port of a URL: its own unless that is missing or zero, else the one of its scheme. */
  predicate HasPort(u: Url, port: nat) {
    match u.port
    case Some(own) => if own > 0 then port == own else SchemeHasPort(u.scheme, port)
    case None => SchemeHasPort(u.scheme, port)
  }

  predicate SchemeHasPort(scheme: string, port: nat) {
    (scheme == "https" && port == 443) || (scheme != "https" && port == 80)
  }

  lemma OriginsByPorts(u: Url, v: Url)
    ensures OriginOf(u) == OriginOf(v)
            <==> u.scheme == v.scheme && u.host == v.host && exists port: nat :: HasPort(u, port) && HasPort(v, port)
  {
    assert HasPort(u, OriginOf(u).port) && HasPort(v, OriginOf(v).port);
  }

  /** For normalised lists a URL is in scope exactly when it has the origin of the target, its path
      continues the segments of an allowed path, and of no excluded one. */
  lemma ScopeBySegments(u: Url, scope: Scope)
    requires Normalised(scope.excluded) && Normalised(scope.allowed) && Rooted(u.path)
    ensures (forall a :: a in scope.excluded ==> Rooted(Stem(a))) && forall a :: a in scope.allowed ==> Rooted(Stem(a))
    ensures var path := if u.path == "" then "/" else u.path;
            InScope(u, Some(scope)) <==> OriginOf(u) == OriginOf(scope.target)
                                         && Within(scope.allowed, path) && !Within(scope.excluded, path)
  {
    NormalisedIsRooted(scope.excluded);
    NormalisedIsRooted(scope.allowed);
    var path := if u.path == "" then "/" else u.path;
    forall a | a in scope.excluded || a in scope.allowed
      ensures Covers(a, path) <==> Segments(Stem(a)) <= Segments(path)
    {
      CoversIsSegmentPrefix(a, path);
    }
  }

  /** Excluding more never admits a URL, and allowing more never turns one away. */
  lemma ScopeIsMonotone(u: Url, scope: Scope, wider: Scope)
    requires wider.target == scope.target
    requires SetOf(wider.excluded) <= SetOf(scope.excluded) && SetOf(scope.allowed) <= SetOf(wider.allowed)
    ensures InScope(u, Some(scope)) ==> InScope(u, Some(wider))
  {
    if InScope(u, Some(scope)) {
      var path := if u.path == "" then "/" else u.path;
      var a :| a in scope.allowed && Covers(a, path);
      assert a in SetOf(scope.allowed);
      forall e | e in wider.excluded ensures !Covers(e, path) {
        assert e in SetOf(wider.excluded);
        assert e in SetOf(scope.excluded);
      }
    }
  }
}
