/** Slash-separated paths: lexical cleaning and joining. */
module Paths {
  import opened Text

  /** A name that stands for itself as one path element. */
  predicate Ordinary(name: string) {
    Free(name, '/') && name != "" && name != "." && name != ".."
  }

  /** Lexical processing of path elements: empty and `.` vanish, `..` removes the element before it. */
  function Walk(stack: seq<string>, parts: seq<string>, rooted: bool): seq<string>
    decreases |parts|
  {
    if parts == [] then stack
    else
      var p := parts[0];
      var next :=
        if p == "" || p == "." then stack
        else if p != ".." then stack + [p]
        else if stack != [] && stack[|stack| - 1] != ".." then stack[..|stack| - 1]
        else if rooted then stack
        else stack + [p];
      Walk(next, parts[1..], rooted)
  }

  predicate Rooted(path: string) {
    path != "" && path[0] == '/'
  }

  function Elements(path: string): seq<string> {
    Walk([], Split(path, '/'), Rooted(path))
  }

  function Render(rooted: bool, elements: seq<string>): string {
    if rooted then "/" + Join(elements, '/') else if elements == [] then "." else Join(elements, '/')
  }

  function Clean(path: string): string {
    Render(Rooted(path), Elements(path))
  }

  /** Leading empty elements are ignored; nothing at all joins to the empty path. */
  function JoinPath(elems: seq<string>): string {
    if elems == [] then ""
    else if elems[0] == "" then JoinPath(elems[1..])
    else Clean(Join(elems, '/'))
  }

  // ----- elements that stand for themselves -----

  predicate AllOrdinary(elements: seq<string>) {
    forall i :: 0 <= i < |elements| ==> Ordinary(elements[i])
  }

  /** What cleaning leaves: ordinary elements, after leading `..` if the path is relative. */
  predicate Settled(elements: seq<string>, rooted: bool)
    decreases |elements|
  {
    elements == [] ||
    (Ordinary(elements[0]) && AllOrdinary(elements)) ||
    (!rooted && elements[0] == ".." && Settled(elements[1..], rooted))
  }

  lemma {:induction false} WalkAppends(stack: seq<string>, parts: seq<string>, rooted: bool)
    requires AllOrdinary(parts)
    ensures Walk(stack, parts, rooted) == stack + parts
    decreases |parts|
  {
    if parts != [] {
      WalkAppends(stack + [parts[0]], parts[1..], rooted);
      assert stack + [parts[0]] + parts[1..] == stack + parts;
    } else {
      assert stack + parts == stack;
    }
  }

  lemma {:induction false} WalkConcat(stack: seq<string>, a: seq<string>, b: seq<string>, rooted: bool)
    ensures Walk(stack, a + b, rooted) == Walk(Walk(stack, a, rooted), b, rooted)
    decreases |a|
  {
    if a == [] {
      assert a + b == b;
    } else {
      assert (a + b)[1..] == a[1..] + b;
      var p := a[0];
      var next :=
        if p == "" || p == "." then stack
        else if p != ".." then stack + [p]
        else if stack != [] && stack[|stack| - 1] != ".." then stack[..|stack| - 1]
        else if rooted then stack
        else stack + [p];
      WalkConcat(next, a[1..], b, rooted);
    }
  }

  lemma {:induction false} SplitConcat(a: string, b: string)
    ensures Split(a + "/" + b, '/') == Split(a, '/') + Split(b, '/')
  {
    if a == "" {
      assert a + "/" + b == "/" + b;
      assert ("/" + b)[1..] == b;
    } else {
      assert (a + "/" + b)[1..] == a[1..] + "/" + b;
      SplitConcat(a[1..], b);
    }
  }

  /** Appending ordinary elements to a path appends them to its cleaned elements. */
  lemma ElementsAppend(path: string, names: seq<string>)
    requires path != "" && names != [] && AllOrdinary(names)
    ensures Elements(path + "/" + Join(names, '/')) == Elements(path) + names
    ensures Rooted(path + "/" + Join(names, '/')) == Rooted(path)
  {
    SplitConcat(path, Join(names, '/'));
    SplitJoin(names, '/');
    WalkConcat([], Split(path, '/'), names, Rooted(path));
    WalkAppends(Elements(path), names, Rooted(path));
  }

  lemma {:induction false} WalkSettled(stack: seq<string>, parts: seq<string>, rooted: bool)
    requires Settled(stack, rooted) && forall i :: 0 <= i < |parts| ==> Free(parts[i], '/')
    ensures Settled(Walk(stack, parts, rooted), rooted)
    decreases |parts|
  {
    if parts != [] {
      var p := parts[0];
      if p == "" || p == "." {
        WalkSettled(stack, parts[1..], rooted);
      } else if p != ".." {
        SettledPush(stack, p, rooted);
        WalkSettled(stack + [p], parts[1..], rooted);
      } else if stack != [] && stack[|stack| - 1] != ".." {
        SettledPop(stack, rooted);
        WalkSettled(stack[..|stack| - 1], parts[1..], rooted);
      } else if rooted {
        WalkSettled(stack, parts[1..], rooted);
      } else {
        SettledUp(stack);
        WalkSettled(stack + [p], parts[1..], rooted);
      }
    }
  }

  lemma {:induction false} SettledPush(stack: seq<string>, p: string, rooted: bool)
    requires Settled(stack, rooted) && Ordinary(p)
    ensures Settled(stack + [p], rooted)
    decreases |stack|
  {
    if stack != [] && !AllOrdinary(stack) {
      assert (stack + [p])[1..] == stack[1..] + [p];
      SettledPush(stack[1..], p, rooted);
    }
  }

  lemma {:induction false} SettledPop(stack: seq<string>, rooted: bool)
    requires Settled(stack, rooted) && stack != []
    ensures Settled(stack[..|stack| - 1], rooted)
    decreases |stack|
  {
    if |stack| > 1 && !AllOrdinary(stack) {
      assert stack[..|stack| - 1][1..] == stack[1..][..|stack[1..]| - 1];
      SettledPop(stack[1..], rooted);
    }
  }

  lemma {:induction false} SettledUp(stack: seq<string>)
    requires Settled(stack, false) && (stack != [] ==> stack[|stack| - 1] == "..")
    ensures Settled(stack + [".."], false)
    decreases |stack|
  {
    if stack == [] {
      assert ([".."])[1..] == [];
      assert Settled([], false);
      assert stack + [".."] == [".."];
    } else {
      assert (stack + [".."])[1..] == stack[1..] + [".."];
      SettledUp(stack[1..]);
    }
  }

  lemma {:induction false} WalkOfSettled(stack: seq<string>, parts: seq<string>, rooted: bool)
    requires Settled(parts, rooted) && (forall i :: 0 <= i < |stack| ==> stack[i] == "..") && (rooted ==> stack == [])
    ensures Walk(stack, parts, rooted) == stack + parts
    decreases |parts|
  {
    if parts == [] {
      assert stack + parts == stack;
    } else if AllOrdinary(parts) {
      WalkAppends(stack, parts, rooted);
    } else {
      WalkOfSettled(stack + [".."], parts[1..], rooted);
      assert stack + [".."] + parts[1..] == stack + parts;
    }
  }

  lemma {:induction false} SettledFree(elements: seq<string>, rooted: bool)
    requires Settled(elements, rooted)
    ensures forall i :: 0 <= i < |elements| ==> Free(elements[i], '/') && elements[i] != ""
    decreases |elements|
  {
    if elements != [] && !AllOrdinary(elements) {
      SettledFree(elements[1..], rooted);
      forall i | 0 <= i < |elements|
        ensures Free(elements[i], '/') && elements[i] != ""
      {
        assert i > 0 ==> elements[i] == elements[1..][i - 1];
      }
    }
  }

  lemma PathSettled(path: string)
    ensures Settled(Elements(path), Rooted(path))
  {
    WalkSettled([], Split(path, '/'), Rooted(path));
  }

  /** Rendering settled elements and reading them again gives them back, so rendering is injective. */
  lemma RenderedElements(elements: seq<string>, rooted: bool)
    requires Settled(elements, rooted)
    ensures Rooted(Render(rooted, elements)) == rooted && Elements(Render(rooted, elements)) == elements
  {
    SettledFree(elements, rooted);
    var path := Render(rooted, elements);
    if elements == [] {
      if rooted {
        assert path == "/" && Split("/", '/') == ["", ""];
        assert Split(path[1..], '/') == [""];
        assert Walk([], ["", ""], true) == Walk([], [""], true) == [];
      } else {
        SplitFree(".", '/');
        assert Walk([], ["."], false) == Walk([], [], false);
      }
    } else {
      SplitJoin(elements, '/');
      WalkOfSettled([], elements, rooted);
      if rooted {
        assert path[1..] == Join(elements, '/');
        assert Split(path, '/') == [""] + elements;
        assert ([""] + elements)[1..] == elements;
      } else {
        JoinFirst(elements);
      }
    }
  }

  lemma JoinFirst(elements: seq<string>)
    requires elements != [] && elements[0] != ""
    ensures Join(elements, '/') != "" && Join(elements, '/')[0] == elements[0][0]
  {
  }

  lemma CleanIdempotent(path: string)
    ensures Clean(Clean(path)) == Clean(path)
  {
    PathSettled(path);
    RenderedElements(Elements(path), Rooted(path));
  }

  /** Joining ordinary names to any path, even the empty one, appends them to its elements. */
  lemma JoinedElements(path: string, names: seq<string>)
    requires names != [] && AllOrdinary(names)
    ensures JoinPath([path, Join(names, '/')]) == Render(Rooted(path), Elements(path) + names)
  {
    var tail := Join(names, '/');
    JoinFirst(names);
    assert [path, tail][1..] == [tail] && [tail][1..] == [];
    if path == "" {
      assert Elements("") == Walk([], [""], false) == [];
      RenderedElements(names, false);
      assert [] + names == names;
    } else {
      ElementsAppend(path, names);
      assert Join([path, tail], '/') == path + "/" + tail;
    }
  }

  lemma SettledAppend(elements: seq<string>, names: seq<string>, rooted: bool)
    requires Settled(elements, rooted) && AllOrdinary(names)
    ensures Settled(elements + names, rooted)
    decreases |names|
  {
    if names == [] {
      assert elements + names == elements;
    } else {
      SettledPush(elements, names[0], rooted);
      SettledAppend(elements + [names[0]], names[1..], rooted);
      assert elements + [names[0]] + names[1..] == elements + names;
    }
  }

  /** The elements of a joined path. */
  lemma ElementsOfJoined(path: string, names: seq<string>)
    requires names != [] && AllOrdinary(names)
    ensures var p := JoinPath([path, Join(names, '/')]);
            Rooted(p) == Rooted(path) && Elements(p) == Elements(path) + names
  {
    JoinedElements(path, names);
    PathSettled(path);
    SettledAppend(Elements(path), names, Rooted(path));
    RenderedElements(Elements(path) + names, Rooted(path));
  }

  function TrimSlashes(path: string): string {
    if path != "" && path[|path| - 1] == '/' then TrimSlashes(path[..|path| - 1]) else path
  }

  /** The last element of a path. */
  function Base(path: string): string {
    if path == "" then "."
    else if TrimSlashes(path) == "" then "/"
    else var parts := Split(TrimSlashes(path), '/'); parts[|parts| - 1]
  }

  /** The last element of a rendered path with an ordinary last element. */
  lemma BaseOfRendered(rooted: bool, elements: seq<string>, name: string)
    requires Settled(elements, rooted) && Ordinary(name)
    ensures Base(Render(rooted, elements + [name])) == name
  {
    var all := elements + [name];
    var path := Render(rooted, all);
    SettledPush(elements, name, rooted);
    SettledFree(all, rooted);
    JoinLast(all);
    assert path[|path| - 1] == name[|name| - 1];
    SplitJoin(all, '/');
    if rooted {
      SplitRooted(Join(all, '/'));
    }
  }

  lemma SplitRooted(path: string)
    ensures Split("/" + path, '/') == [""] + Split(path, '/')
  {
    assert ("/" + path)[1..] == path;
  }

  lemma {:induction false} JoinLast(elements: seq<string>)
    requires elements != [] && elements[|elements| - 1] != ""
    ensures var s, last := Join(elements, '/'), elements[|elements| - 1]; s != "" && s[|s| - 1] == last[|last| - 1]
  {
    if |elements| > 1 {
      JoinLast(elements[1..]);
    }
  }
}
