/**
  The class-name joiner `cx(...classes)`: it drops every falsy argument
  (`classes.filter(Boolean)`) and joins the rest with single spaces.
 */
module ClassNames {

  /**
    The values that reach `cx`: class strings, `false` from a guarded
    `!reduce && "..."`, and an absent `className` prop (`undefined`, `null`).
   */
  datatype Arg = Str(s: string) | False | Undefined | Null

  /** JavaScript truthiness of an argument: only a non-empty string. */
  predicate Truthy(a: Arg) {
    a.Str? && a.s != ""
  }

  /**
    `classes.filter(Boolean)`: every truthy argument's string is kept, and
    every kept string is a truthy argument's. `KeptSnoc` gives the order.
   */
  function Kept(args: seq<Arg>): (parts: seq<string>)
    ensures |parts| <= |args|
    ensures forall k :: 0 <= k < |parts| ==> parts[k] != ""
    ensures forall k :: 0 <= k < |args| && Truthy(args[k]) ==> args[k].s in parts
    ensures forall j :: 0 <= j < |parts| ==>
      exists k :: 0 <= k < |args| && Truthy(args[k]) && args[k].s == parts[j]
    ensures (forall k :: 0 <= k < |args| ==> !Truthy(args[k])) <==> parts == []
    decreases |args|
  {
    if args == [] then []
    else
      assert forall k :: 1 <= k < |args| ==> args[k] == args[1..][k - 1];
      (if Truthy(args[0]) then [args[0].s] else []) + Kept(args[1..])
  }

  /** `.join(" ")`: the output starts with the first part, and is empty only for no parts. */
  function Join(parts: seq<string>): (r: string)
    ensures parts != [] ==> parts[0] <= r
    ensures (forall k :: 0 <= k < |parts| ==> parts[k] != "") ==> (r == "" <==> parts == [])
    decreases |parts|
  {
    if |parts| == 0 then ""
    else if |parts| == 1 then parts[0]
    else parts[0] + " " + Join(parts[1..])
  }

  /** `cx(...classes)`: empty exactly when no argument is truthy. */
  function Cx(args: seq<Arg>): (s: string)
    ensures s == "" <==> forall k :: 0 <= k < |args| ==> !Truthy(args[k])
  {
    Join(Kept(args))
  }

  /** Splitting a string at every space (`s.split(" ")`). */
  function Split(s: string): (r: seq<string>)
    ensures |r| > 0
    decreases |s|
  {
    if s == [] then [""]
    else
      var rest := Split(s[1..]);
      if s[0] == ' ' then [""] + rest else [[s[0]] + rest[0]] + rest[1..]
  }

  /** The class names listed in a `class` attribute; none for the empty string. */
  function Words(s: string): (ws: seq<string>) {
    if s == "" then [] else Split(s)
  }

  predicate NoSpace(s: string) {
    forall k :: 0 <= k < |s| ==> s[k] != ' '
  }

  lemma {:induction false} KeptAppend(a: seq<Arg>, b: seq<Arg>)
    ensures Kept(a + b) == Kept(a) + Kept(b)
    decreases |a|
  {
    if a != [] {
      assert (a + b)[1..] == a[1..] + b;
      KeptAppend(a[1..], b);
    } else {
      assert a + b == b;
    }
  }

  /** The filter keeps argument order: a truthy argument added last is kept last. */
  lemma KeptSnoc(args: seq<Arg>, a: Arg)
    ensures Kept(args + [a]) == Kept(args) + (if Truthy(a) then [a.s] else [])
  {
    KeptAppend(args, [a]);
    assert [a][1..] == [];
  }

  lemma {:induction false} SplitSingle(p: string)
    requires NoSpace(p)
    ensures Split(p) == [p]
    decreases |p|
  {
    if p != [] {
      SplitSingle(p[1..]);
      assert [p[0]] + p[1..] == p;
    }
  }

  lemma {:induction false} SplitAfterWord(p: string, q: string)
    requires NoSpace(p)
    ensures Split(p + " " + q) == [p] + Split(q)
    decreases |p|
  {
    var s := p + " " + q;
    if p == [] {
      assert s[0] == ' ' && s[1..] == q;
    } else {
      assert s[0] == p[0] && s[1..] == p[1..] + " " + q;
      SplitAfterWord(p[1..], q);
      assert [p[0]] + p[1..] == p;
    }
  }

  /** Splitting a join of space-free, non-empty names at spaces gives back the names. */
  lemma {:induction false} SplitJoin(parts: seq<string>)
    requires parts != []
    requires forall k :: 0 <= k < |parts| ==> NoSpace(parts[k])
    ensures Split(Join(parts)) == parts
    decreases |parts|
  {
    if |parts| == 1 {
      SplitSingle(parts[0]);
    } else {
      SplitAfterWord(parts[0], Join(parts[1..]));
      SplitJoin(parts[1..]);
    }
  }

  /**
    `cx` lists exactly the truthy arguments, in argument order: when no
    argument contains a space, the class names of its output are those
    arguments.
   */
  lemma CxListsTruthyArgs(args: seq<Arg>)
    requires forall k :: 0 <= k < |args| && args[k].Str? ==> NoSpace(args[k].s)
    ensures Words(Cx(args)) == Kept(args)
  {
    var parts := Kept(args);
    KeptNoSpace(args);
    if parts != [] {
      SplitJoin(parts);
    }
  }

  lemma {:induction false} KeptNoSpace(args: seq<Arg>)
    requires forall k :: 0 <= k < |args| && args[k].Str? ==> NoSpace(args[k].s)
    ensures forall k :: 0 <= k < |Kept(args)| ==> NoSpace(Kept(args)[k])
    decreases |args|
  {
    if args != [] {
      KeptNoSpace(args[1..]);
    }
  }

  /** `cx` over two argument lists joins their two outputs with one space, dropping an empty side. */
  lemma CxAppend(a: seq<Arg>, b: seq<Arg>)
    ensures Cx(a + b) ==
      if Cx(a) == "" then Cx(b)
      else if Cx(b) == "" then Cx(a)
      else Cx(a) + " " + Cx(b)
  {
    KeptAppend(a, b);
    JoinAppend(Kept(a), Kept(b));
  }

  lemma {:induction false} JoinAppend(p: seq<string>, q: seq<string>)
    requires forall k :: 0 <= k < |p| ==> p[k] != ""
    requires forall k :: 0 <= k < |q| ==> q[k] != ""
    ensures Join(p + q) ==
      if Join(p) == "" then Join(q)
      else if Join(q) == "" then Join(p)
      else Join(p) + " " + Join(q)
    decreases |p|
  {
    if p == [] {
      assert p + q == q;
    } else if |p| == 1 {
      if q != [] {
        assert p + q == [p[0]] + q;
        assert (p + q)[1..] == q;
      } else {
        assert p + q == p;
      }
    } else {
      assert (p + q)[1..] == p[1..] + q;
      JoinAppend(p[1..], q);
    }
  }
}
