/** Unix paths as their components, and the byte order of strings. */
module Paths {
  import opened Basics

  /** The parts between slashes, empty ones included. */
  function Split(s: string): (parts: seq<string>)
    ensures parts != []
  {
    if s == "" then [""]
    else
      var rest := Split(s[1..]);
      if s[0] == '/' then [""] + rest else [[s[0]] + rest[0]] + rest[1..]
  }

  /** Empty parts and single dots are not components. */
  function Named(parts: seq<string>): seq<string> {
    if parts == [] then []
    else (if parts[0] == "" || parts[0] == "." then [] else [parts[0]]) + Named(parts[1..])
  }

  /** `Path::components`: the root, a leading dot, then the named parts. */
  function Components(path: string): seq<string> {
    (if path != "" && path[0] == '/' then ["/"] else if Split(path)[0] == "." then ["."] else [])
    + Named(Split(path))
  }

  function Depth(path: string): nat {
    |Components(path)|
  }

  /** `Path::starts_with`, component by component. */
  predicate StartsWith(path: string, base: string) {
    Components(base) <= Components(path)
  }

  predicate StrictlyBeneath(inner: string, outer: string) {
    Components(outer) < Components(inner)
  }

  /** `Path::file_name`: the last component when it is a name. */
  function FileName(path: string): Option<string> {
    var parts := Components(path);
    if parts == [] || parts[|parts| - 1] in {"/", ".", ".."} then None else Some(parts[|parts| - 1])
  }

  lemma {:induction false} SplitJoin(a: string, b: string)
    ensures Split(a + "/" + b) == Split(a) + Split(b)
  {
    if a == "" {
      assert ("/" + b)[1..] == b;
      assert a + "/" + b == "/" + b;
    } else {
      assert (a + "/" + b)[1..] == a[1..] + "/" + b;
      SplitJoin(a[1..], b);
    }
  }

  lemma {:induction false} NamedAppend(a: seq<string>, b: seq<string>)
    ensures Named(a + b) == Named(a) + Named(b)
  {
    if a == [] {
      assert a + b == b;
    } else {
      assert (a + b)[1..] == a[1..] + b;
      NamedAppend(a[1..], b);
    }
  }

  lemma {:induction false} SplitPlain(name: string)
    requires '/' !in name
    ensures Split(name) == [name]
  {
    if name != "" {
      SplitPlain(name[1..]);
      assert [name[0]] + name[1..] == name;
    }
  }

  /** Joining a name to an absolute directory adds exactly that component, so it lies strictly beneath. */
  lemma JoinedIsBeneath(directory: string, name: string)
    requires directory != "" && directory[0] == '/' && '/' !in name && name != "" && name != "."
    ensures Components(directory + "/" + name) == Components(directory) + [name]
    ensures StrictlyBeneath(directory + "/" + name, directory)
  {
    SplitJoin(directory, name);
    SplitPlain(name);
    NamedAppend(Split(directory), [name]);
    assert Named([name]) == [name];
  }

  /** `str::cmp` is at most Equal. */
  predicate LexLe(a: string, b: string) {
    a == "" || (b != "" && (a[0] < b[0] || (a[0] == b[0] && LexLe(a[1..], b[1..]))))
  }

  lemma {:induction false} LexTotal(a: string, b: string)
    ensures LexLe(a, b) || LexLe(b, a)
    ensures LexLe(a, b) && LexLe(b, a) ==> a == b
  {
    if a != "" && b != "" {
      LexTotal(a[1..], b[1..]);
      assert a == [a[0]] + a[1..] && b == [b[0]] + b[1..];
    }
  }

  lemma {:induction false} LexTransitive(a: string, b: string, c: string)
    requires LexLe(a, b) && LexLe(b, c)
    ensures LexLe(a, c)
  {
    if a != "" && a[0] == b[0] == c[0] {
      LexTransitive(a[1..], b[1..], c[1..]);
    }
  }

  /** The order is the usual one: the first difference decides, and a prefix comes first. */
  lemma {:induction false} LexDecides(common: string, a: string, b: string)
    ensures LexLe(common + a, common + b) <==> LexLe(a, b)
  {
    if common == "" {
      assert common + a == a && common + b == b;
    } else {
      assert (common + a)[1..] == common[1..] + a && (common + b)[1..] == common[1..] + b;
      LexDecides(common[1..], a, b);
    }
  }

  lemma LexFirst(common: string, x: char, y: char, a: string, b: string)
    requires x < y
    ensures LexLe(common, common + b)
    ensures LexLe(common + ([x] + a), common + ([y] + b)) && !LexLe(common + ([y] + b), common + ([x] + a))
  {
    LexDecides(common, [x] + a, [y] + b);
    LexDecides(common, [y] + b, [x] + a);
    LexDecides(common, "", b);
    assert common + "" == common;
  }
}
