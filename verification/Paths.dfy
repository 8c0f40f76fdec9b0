/**
 Absolute path texts, in the three readings the repository gives them:
 Rust's `Path::components`, Go's `path.Clean`, and plain string prefixes.
 */
module Paths {

  /** What `std::path::Path::components` yields on Unix. */
  datatype Component = RootDir | CurDir | ParentDir | Normal(name: string)

  // ---------------------------------------------------------------- texts

  /** The pieces of `s` between slashes; always at least one piece. */
  function Split(s: string): (parts: seq<string>)
    ensures |parts| >= 1
  {
    if s == "" then [""]
    else
      var rest := Split(s[1..]);
      if s[0] == '/' then [""] + rest
      else [[s[0]] + rest[0]] + rest[1..]
  }

  lemma {:induction false} SplitPieces(s: string)
    ensures forall p :: p in Split(s) ==> '/' !in p
  {
    if s != "" {
      SplitPieces(s[1..]);
    }
  }

  predicate IsAbsolute(s: string) {
    s != "" && s[0] == '/'
  }

  /** Components of the pieces that are neither empty nor a single dot. */
  function Body(parts: seq<string>): seq<Component> {
    if parts == [] then []
    else
      var head := parts[0];
      (if head == "" || head == "." then []
       else if head == ".." then [ParentDir]
       else [Normal(head)]) + Body(parts[1..])
  }

  function Components(s: string): seq<Component> {
    var parts := Split(s);
    (if IsAbsolute(s) then [RootDir]
     else if parts[0] == "." then [CurDir]
     else []) + Body(parts)
  }

  function Normals(names: seq<string>): (cs: seq<Component>)
    ensures |cs| == |names|
    ensures forall i :: 0 <= i < |names| ==> cs[i] == Normal(names[i])
  {
    seq(|names|, i requires 0 <= i < |names| => Normal(names[i]))
  }

  predicate IsPlain(name: string) {
    name != "" && name != "." && name != ".." && '/' !in name
  }

  predicate AllPlain(names: seq<string>) {
    forall n :: n in names ==> IsPlain(n)
  }

  function SlashEach(names: seq<string>): string {
    if names == [] then "" else "/" + names[0] + SlashEach(names[1..])
  }

  /** The canonical text of an absolute path. */
  function Text(names: seq<string>): string {
    if names == [] then "/" else SlashEach(names)
  }

  lemma OneName(a: string)
    ensures Text([a]) == "/" + a
  {
    assert [a] != [] && [a][1..] == [];
    assert SlashEach([a]) == "/" + a + SlashEach([]) == "/" + a;
  }

  lemma TwoNames(a: string, b: string)
    ensures Text([a, b]) == "/" + a + "/" + b
  {
    OneName(b);
    assert [a, b][1..] == [b];
  }

  lemma ThreeNames(a: string, b: string, c: string)
    ensures Text([a, b, c]) == "/" + a + "/" + b + "/" + c
  {
    TwoNames(b, c);
    assert [a, b, c][1..] == [b, c];
  }

  // ---------------------------------------------------- the Rust validators

  /** `clean_absolute`: only a root and normal components, in sandrun. */
  predicate CleanAbsolute(s: string, allowRoot: bool) {
    IsAbsolute(s)
    && (allowRoot || Components(s) != [RootDir])
    && forall c :: c in Components(s) ==> c.RootDir? || c.Normal?
  }

  /** The names of the normal components of a path. */
  function Names(cs: seq<Component>): seq<string> {
    if cs == [] then []
    else (if cs[0].Normal? then [cs[0].name] else []) + Names(cs[1..])
  }

  /** `Path::starts_with`, which compares whole components. */
  predicate StartsWith(path: string, base: string) {
    Components(base) <= Components(path)
  }

  /** The overlap test shared by campd and sandrun. */
  predicate ComponentsOverlap(a: string, b: string) {
    StartsWith(a, b) || StartsWith(b, a)
  }

  // ------------------------------------------------------ the Go validators

  /** `path.Clean` on a rooted path: a `..` at the root is dropped. */
  function Squash(stack: seq<string>, parts: seq<string>): seq<string>
    decreases parts
  {
    if parts == [] then stack
    else if parts[0] == "" || parts[0] == "." then Squash(stack, parts[1..])
    else if parts[0] == ".." then
      Squash(if stack == [] then [] else stack[..|stack| - 1], parts[1..])
    else Squash(stack + [parts[0]], parts[1..])
  }

  function GoClean(s: string): string
    requires IsAbsolute(s)
  {
    Text(Squash([], Split(s)))
  }

  predicate GoAbsoluteAllowRoot(s: string) {
    IsAbsolute(s) && '\0' !in s && GoClean(s) == s
  }

  predicate GoAbsolute(s: string) {
    s != "/" && GoAbsoluteAllowRoot(s)
  }

  predicate HasPrefix(s: string, prefix: string) {
    prefix <= s
  }

  /** `mountTargetsOverlap`: plain string prefixes with a slash appended. */
  predicate GoOverlap(first: string, second: string) {
    first == second || HasPrefix(first, second + "/") || HasPrefix(second, first + "/")
  }

  // ------------------------------------------------------ splitting lemmas

  lemma {:induction false} SplitConcat(a: string, b: string)
    ensures Split(a + "/" + b) == Split(a) + Split(b)
  {
    var s := a + "/" + b;
    if a == "" {
      assert s[1..] == b;
    } else {
      assert s[1..] == a[1..] + "/" + b;
      SplitConcat(a[1..], b);
    }
  }

  lemma {:induction false} SplitWhole(n: string)
    requires '/' !in n
    ensures Split(n) == [n]
  {
    if n != "" {
      SplitWhole(n[1..]);
      assert [n[0]] + n[1..] == n;
    }
  }

  lemma {:induction false} SplitNames(first: string, names: seq<string>)
    requires '/' !in first && forall n :: n in names ==> '/' !in n
    ensures Split(first + SlashEach(names)) == [first] + names
    decreases names
  {
    SplitWhole(first);
    if names == [] {
      assert first + SlashEach(names) == first;
    } else {
      var tail := names[0] + SlashEach(names[1..]);
      assert first + SlashEach(names) == first + "/" + tail;
      SplitConcat(first, tail);
      SplitNames(names[0], names[1..]);
    }
  }

  lemma SplitText(names: seq<string>)
    requires AllPlain(names)
    ensures names != [] ==> Split(Text(names)) == [""] + names
    ensures names == [] ==> Split(Text(names)) == ["", ""]
  {
    if names != [] {
      SplitNames("", names);
      assert "" + SlashEach(names) == SlashEach(names);
    } else {
      SplitConcat("", "");
      assert "" + "/" + "" == "/";
    }
  }

  lemma {:induction false} BodyConcat(x: seq<string>, y: seq<string>)
    ensures Body(x + y) == Body(x) + Body(y)
  {
    if x == [] {
      assert x + y == y;
    } else {
      assert (x + y)[1..] == x[1..] + y;
      BodyConcat(x[1..], y);
    }
  }

  lemma {:induction false} BodyPlain(names: seq<string>)
    requires AllPlain(names)
    ensures Body(names) == Normals(names)
  {
    if names != [] {
      BodyPlain(names[1..]);
      assert IsPlain(names[0]);
      assert Normals(names) == [Normal(names[0])] + Normals(names[1..]);
    }
  }

  lemma {:induction false} BodyShape(parts: seq<string>)
    requires forall p :: p in parts ==> '/' !in p
    ensures forall c :: c in Body(parts) ==> c == ParentDir || (c.Normal? && IsPlain(c.name))
  {
    if parts != [] {
      BodyShape(parts[1..]);
    }
  }

  /** A root or a dot can only come first, and every name is plain. */
  lemma ComponentsShape(s: string)
    ensures forall i :: 0 < i < |Components(s)| ==> Components(s)[i].ParentDir? || Components(s)[i].Normal?
    ensures forall c :: c in Components(s) && c.Normal? ==> IsPlain(c.name)
    ensures IsAbsolute(s) <==> Components(s) != [] && Components(s)[0].RootDir?
  {
    SplitPieces(s);
    BodyShape(Split(s));
    var body := Body(Split(s));
    var head := Components(s)[..|Components(s)| - |body|];
    assert |head| <= 1;
    assert Components(s) == head + body;
    forall i | 0 < i < |Components(s)|
      ensures Components(s)[i] in body
    {
      assert Components(s)[i] == body[i - |head|];
    }
  }

  /** Reading back the canonical text gives exactly the names it was made of. */
  lemma TextComponents(names: seq<string>)
    requires AllPlain(names)
    ensures IsAbsolute(Text(names))
    ensures Components(Text(names)) == [RootDir] + Normals(names)
  {
    hide Split, AllPlain, Normals;
    SplitText(names);
    BodyPlain(names);
    if names == [] {
      assert Body(["", ""]) == Body([""]) == [];
    } else {
      assert Body([""]) == [];
      hide Body;
      BodyConcat([""], names);
    }
  }

  // ------------------------------------------------------- clean paths

  /** A piece between slashes that is neither empty nor a single dot. */
  predicate IsStep(piece: string) {
    piece != "" && piece != "."
  }

  lemma {:induction false} BodyMeaning(parts: seq<string>)
    requires forall p :: p in parts ==> '/' !in p
    ensures ParentDir in Body(parts) <==> ".." in parts
    ensures Body(parts) != [] <==> exists p :: p in parts && IsStep(p)
  {
    if parts != [] {
      var head, rest := parts[0], parts[1..];
      assert parts == [head] + rest;
      BodyMeaning(rest);
      assert forall p :: p in parts <==> p == head || p in rest;
      assert IsStep(head) <==> |Body(parts)| > |Body(rest)|;
      assert head in parts;
    }
  }

  /** A clean path is absolute, has no `..` between its slashes and, unless the root will do, names something. */
  lemma CleanMeaning(s: string, allowRoot: bool)
    ensures CleanAbsolute(s, allowRoot) <==>
            && s != "" && s[0] == '/' && ".." !in Split(s)
            && (allowRoot || exists p :: p in Split(s) && IsStep(p))
  {
    hide Split, Body;
    SplitPieces(s);
    BodyMeaning(Split(s));
    BodyShape(Split(s));
    if IsAbsolute(s) {
      var body := Body(Split(s));
      assert Components(s) == [RootDir] + body;
      assert forall c :: c in Components(s) <==> c == RootDir || c in body;
      assert body == Components(s)[1..];
    }
  }

  // ------------------------------------------------------------- joining

  /** `PathBuf::join`. */
  function Join(a: string, b: string): string {
    if IsAbsolute(b) then b
    else if a == "" || a[|a| - 1] == '/' then a + b
    else a + "/" + b
  }

  /** Joining texts concatenates components; the pushed text's leading dot is lost. */
  lemma JoinComponents(a: string, b: string)
    requires IsAbsolute(a) && !IsAbsolute(b)
    ensures IsAbsolute(Join(a, b))
    ensures Components(Join(a, b)) == Components(a) + Body(Split(b))
  {
    hide Split, Body;
    assert Body(Split(Join(a, b))) == Body(Split(a)) + Body(Split(b)) by {
      if a[|a| - 1] == '/' {
        BodyAfterSlash(a[..|a| - 1], b);
        assert a == a[..|a| - 1] + "/";
        assert a[..|a| - 1] + "/" + b == a + b;
      } else {
        SplitConcat(a, b);
        BodyConcat(Split(a), Split(b));
      }
    }
    assert Join(a, b)[0] == '/';
  }

  lemma BodyAfterSlash(p: string, b: string)
    ensures Body(Split(p + "/" + b)) == Body(Split(p + "/")) + Body(Split(b))
  {
    SplitConcat(p, b);
    SplitConcat(p, "");
    assert p + "/" + "" == p + "/";
    assert Body([""]) == [];
    BodyConcat(Split(p), [""]);
    BodyConcat(Split(p), Split(b));
  }

  // ------------------------------------- Go's reading against Rust's reading

  lemma {:induction false} SquashPlain(stack: seq<string>, parts: seq<string>)
    requires AllPlain(stack)
    requires forall p :: p in parts ==> '/' !in p
    ensures AllPlain(Squash(stack, parts))
    decreases parts
  {
    if parts != [] {
      if parts[0] == "" || parts[0] == "." {
        SquashPlain(stack, parts[1..]);
      } else if parts[0] == ".." {
        SquashPlain(if stack == [] then [] else stack[..|stack| - 1], parts[1..]);
      } else {
        SquashPlain(stack + [parts[0]], parts[1..]);
      }
    }
  }

  lemma {:induction false} SquashNames(stack: seq<string>, names: seq<string>)
    requires AllPlain(names)
    ensures Squash(stack, names) == stack + names
    decreases names
  {
    if names == [] {
      assert stack + names == stack;
    } else {
      assert IsPlain(names[0]);
      SquashNames(stack + [names[0]], names[1..]);
      assert stack + [names[0]] + names[1..] == stack + names;
    }
  }

  lemma CleanCanonical(names: seq<string>)
    requires AllPlain(names)
    ensures IsAbsolute(Text(names)) && Squash([], Split(Text(names))) == names
  {
    SplitText(names);
    SquashNames([], names);
    if names == [] {
      assert Squash([], [""]) == [] && ["", ""][1..] == [""];
    } else {
      assert ([""] + names)[1..] == names;
      assert [] + names == names;
    }
  }

  /** Go's test accepts exactly the canonical texts of plain names. */
  lemma GoCleanIsCanonical(s: string)
    requires IsAbsolute(s)
    ensures GoClean(s) == s <==> exists names :: AllPlain(names) && s == Text(names)
  {
    var squashed := Squash([], Split(s));
    SplitPieces(s);
    SquashPlain([], Split(s));
    if GoClean(s) == s {
      assert AllPlain(squashed) && s == Text(squashed);
    }
    forall names | AllPlain(names) && s == Text(names)
      ensures GoClean(s) == s
    {
      CleanCanonical(names);
    }
  }

  /** The names of a path that Go accepts. */
  function GoNames(s: string): seq<string>
    requires IsAbsolute(s)
  {
    Squash([], Split(s))
  }

  lemma GoNamesExact(s: string)
    requires GoAbsoluteAllowRoot(s)
    ensures AllPlain(GoNames(s)) && s == Text(GoNames(s))
    ensures Components(s) == [RootDir] + Normals(GoNames(s))
  {
    SplitPieces(s);
    SquashPlain([], Split(s));
    TextComponents(GoNames(s));
  }

  /**
   The two languages' tests differ only in spelling: Go accepts a path exactly
   when Rust accepts it and it is also written canonically.
   */
  lemma GoAcceptsIffRustAcceptsCanonical(s: string, allowRoot: bool)
    requires '\0' !in s
    ensures (if allowRoot then GoAbsoluteAllowRoot(s) else GoAbsolute(s))
            <==> CleanAbsolute(s, allowRoot) && s == Text(Names(Components(s)))
  {
    if GoAbsoluteAllowRoot(s) {
      GoNamesExact(s);
      var names := GoNames(s);
      NamesOfNormals(names);
      assert Names([RootDir] + Normals(names)) == names by {
        assert ([RootDir] + Normals(names))[1..] == Normals(names);
      }
      if Components(s) == [RootDir] {
        assert names == [] by { assert |[RootDir] + Normals(names)| == 1; }
      }
      if s == "/" {
        assert Components(Text([])) == [RootDir] by { TextComponents([]); }
      }
    }
    if CleanAbsolute(s, allowRoot) && s == Text(Names(Components(s))) {
      ComponentsShape(s);
      NamesPlain(Components(s));
      GoCleanIsCanonical(s);
      if s == "/" {
        TextComponents([]);
        assert [RootDir] + Normals([]) == [RootDir];
      }
    }
  }

  lemma DoubledSlashParts()
    ensures Split("/a//b") == ["", "a", "", "b"]
  {
    SplitWhole("");
    SplitWhole("a");
    SplitWhole("b");
    SplitConcat("", "b");
    SplitConcat("a", "/b");
    SplitConcat("", "a//b");
  }

  lemma DoubledSlashBody()
    ensures Body(["", "a", "", "b"]) == [Normal("a"), Normal("b")]
  {
    assert Body(["b"]) == [Normal("b")];
    assert Body(["", "b"]) == [Normal("b")];
    assert Body(["a", "", "b"]) == [Normal("a"), Normal("b")];
  }

  lemma DoubledSlashSquash()
    ensures Squash([], ["", "a", "", "b"]) == ["a", "b"]
  {
    assert Squash(["a"], ["b"]) == Squash(["a"] + ["b"], []) == ["a", "b"];
    assert Squash(["a"], ["", "b"]) == Squash(["a"], ["b"]);
    assert Squash([], ["a", "", "b"]) == Squash([] + ["a"], ["", "b"]);
    assert [] + ["a"] == ["a"];
  }

  /** A path Rust accepts and Go refuses, so the two tests are not the same. */
  lemma RustAcceptsMore()
    ensures CleanAbsolute("/a//b", false) && !GoAbsoluteAllowRoot("/a//b")
  {
    hide Split, Body, Squash;
    DoubledSlashParts();
    DoubledSlashBody();
    DoubledSlashSquash();
    assert Text(["a", "b"]) == "/a/b" by {
      assert SlashEach(["b"]) == "/b";
    }
  }

  lemma {:induction false} NamesOfNormals(names: seq<string>)
    ensures Names(Normals(names)) == names
  {
    if names != [] {
      assert Normals(names)[1..] == Normals(names[1..]);
      NamesOfNormals(names[1..]);
    }
  }

  lemma {:induction false} NamesPlain(cs: seq<Component>)
    requires forall c :: c in cs && c.Normal? ==> IsPlain(c.name)
    ensures AllPlain(Names(cs))
  {
    if cs != [] {
      NamesPlain(cs[1..]);
    }
  }

  lemma {:induction false} SlashEachConcat(a: seq<string>, b: seq<string>)
    ensures SlashEach(a + b) == SlashEach(a) + SlashEach(b)
  {
    if a == [] {
      assert a + b == b;
    } else {
      assert (a + b)[1..] == a[1..] + b;
      SlashEachConcat(a[1..], b);
    }
  }

  lemma PrefixGivesAncestor(a: seq<string>, b: seq<string>)
    requires AllPlain(a) && AllPlain(b) && a != [] && b != []
    requires HasPrefix(Text(a), Text(b) + "/")
    ensures b < a
  {
    hide Split, Text, AllPlain;
    var z := Text(a)[|Text(b)| + 1..];
    assert Text(a) == Text(b) + "/" + z;
    SplitConcat(Text(b), z);
    SplitText(a);
    SplitText(b);
    assert [""] + a == [""] + (b + Split(z));
    assert a == ([""] + a)[1..] == ([""] + (b + Split(z)))[1..] == b + Split(z);
  }

  lemma AncestorGivesPrefix(a: seq<string>, b: seq<string>)
    requires b != [] && b < a
    ensures HasPrefix(Text(a), Text(b) + "/")
  {
    var c := a[|b|..];
    assert a == b + c;
    SlashEachConcat(b, c);
    assert SlashEach(c)[0] == '/';
    assert Text(b) + "/" <= Text(a);
  }

  lemma PrefixIsAncestor(a: seq<string>, b: seq<string>)
    requires AllPlain(a) && AllPlain(b) && a != [] && b != []
    ensures HasPrefix(Text(a), Text(b) + "/") <==> b < a
  {
    hide Text, AllPlain;
    if HasPrefix(Text(a), Text(b) + "/") {
      PrefixGivesAncestor(a, b);
    }
    if b < a {
      AncestorGivesPrefix(a, b);
    }
  }

  /** On paths Go accepts, its string test and Rust's component test agree. */
  lemma OverlapTestsAgree(x: string, y: string)
    requires GoAbsolute(x) && GoAbsolute(y)
    ensures GoOverlap(x, y) <==> ComponentsOverlap(x, y)
  {
    GoNamesExact(x);
    GoNamesExact(y);
    var a, b := GoNames(x), GoNames(y);
    PrefixIsAncestor(a, b);
    PrefixIsAncestor(b, a);
    RootedPrefix(a, b);
    RootedPrefix(b, a);
    if x == y {
      assert StartsWith(x, y);
    }
    if a <= b && b <= a {
      assert a == b;
    }
  }

  lemma RootedPrefix(a: seq<string>, b: seq<string>)
    ensures [RootDir] + Normals(a) <= [RootDir] + Normals(b) <==> a <= b
  {
    var x, y := [RootDir] + Normals(a), [RootDir] + Normals(b);
    if x <= y {
      forall i | 0 <= i < |a|
        ensures a[i] == b[i]
      {
        assert x[i + 1] == y[i + 1];
      }
    }
    if a <= b {
      forall i | 0 <= i < |x|
        ensures x[i] == y[i]
      {
      }
    }
  }
}
