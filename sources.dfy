/** The source registry: an append-only list of (file name, text) pairs
    looked up by name, first match first; and the `{file ..., a->b}`
    rendering of a source range. */
module Sources {
  import opened Wrappers
  import opened Strings

  /** The text registered under `name` first, if any. */
  function Lookup(files: seq<(string, string)>, name: string): Option<string> {
    if files == [] then None
    else if files[0].0 == name then Some(files[0].1)
    else Lookup(files[1..], name)
  }

  /** `Lookup` finds nothing exactly when no entry has the name. */
  lemma {:induction false} LookupNone(files: seq<(string, string)>, name: string)
    ensures Lookup(files, name).None? <==> forall k :: 0 <= k < |files| ==> files[k].0 != name
  {
    if files != [] {
      LookupNone(files[1..], name);
      assert forall k :: 1 <= k < |files| ==> files[k] == files[1..][k - 1];
    }
  }

  /** What `Lookup` finds is the text of the earliest entry with the
      name. */
  lemma {:induction false} LookupFirst(files: seq<(string, string)>, name: string)
    requires Lookup(files, name).Some?
    ensures exists k :: 0 <= k < |files| && files[k] == (name, Lookup(files, name).value)
                        && forall j :: 0 <= j < k ==> files[j].0 != name
  {
    if files[0].0 != name {
      LookupFirst(files[1..], name);
      var k :| 0 <= k < |files[1..]| && files[1..][k] == (name, Lookup(files, name).value)
               && forall j :: 0 <= j < k ==> files[1..][j].0 != name;
      assert files[k + 1] == (name, Lookup(files, name).value);
      assert forall j :: 1 <= j < k + 1 ==> files[j] == files[1..][j - 1];
    }
  }

  /** Adding an entry leaves every earlier lookup as it was and makes the
      new name findable when it was not. */
  lemma {:induction false} LookupAfterPush(files: seq<(string, string)>, n: string, text: string, name: string)
    ensures Lookup(files + [(n, text)], name)
         == if Lookup(files, name).Some? then Lookup(files, name)
            else if n == name then Some(text) else None
  {
    if files == [] {
      assert files + [(n, text)] == [(n, text)];
      assert [(n, text)][1..] == [];
    } else {
      assert (files + [(n, text)])[1..] == files[1..] + [(n, text)];
      LookupAfterPush(files[1..], n, text, name);
    }
  }

  class Sources {
    var files: seq<(string, string)>

    /** `Sources::new`. */
    constructor ()
      ensures files == []
    {
      files := [];
    }

    /** `push_source`: appends an entry. */
    method PushSource(fileName: string, source: string)
      modifies this
      ensures files == old(files) + [(fileName, source)]
    {
      files := files + [(fileName, source)];
    }

    /** `source_by_name`: a linear search that returns at the first entry
        with the name. */
    method SourceByName(name: string) returns (r: Option<string>)
      ensures r == Lookup(files, name)
    {
      var i := 0;
      while i < |files|
        invariant 0 <= i <= |files|
        invariant Lookup(files, name) == Lookup(files[i..], name)
      {
        if files[i].0 == name {
          return Some(files[i].1);
        }
        assert files[i..][1..] == files[i + 1..];
        i := i + 1;
      }
      return None;
    }
  }

  datatype SourceRef = SourceRef(file: string, start: nat, end: nat)

  /** `Display for SourceRef`: `{file '<file>', <start>-><end>}`. */
  function Display(r: SourceRef): string {
    "{file '" + r.file + "', " + NatToString(r.start) + "->" + NatToString(r.end) + "}"
  }

  // ---------------------------------------------------------------------
  // Reading a rendered range back.

  /** The first position at or after `from` that holds `c`, or `|s|`. */
  function FindFrom(s: string, c: char, from: nat): (k: nat)
    requires from <= |s|
    ensures from <= k <= |s| && (k < |s| ==> s[k] == c)
    ensures forall j :: from <= j < k ==> s[j] != c
    decreases |s| - from
  {
    if from == |s| || s[from] == c then from else FindFrom(s, c, from + 1)
  }

  /** Splits `s` at the first `c`: the text before it and the text
      `skip` characters on (empty when `s` is shorter). */
  function Cut(s: string, c: char, skip: nat): (string, string) {
    var k := FindFrom(s, c, 0);
    (s[..k], if k + skip <= |s| then s[k + skip..] else [])
  }

  /** Recovers file, start and end from a rendered range whose file name
      has no quote. */
  function ParseSourceRef(s: string): SourceRef
    requires |s| >= 7
  {
    var (file, u) := Cut(s[7..], '\'', 3);
    var (a, v) := Cut(u, '-', 2);
    var (b, _) := Cut(v, '}', 1);
    SourceRef(file, ParseNat(a), ParseNat(b))
  }

  lemma FindFromAt(s: string, c: char, from: nat, k: nat)
    requires from <= k < |s| && s[k] == c && forall j :: from <= j < k ==> s[j] != c
    ensures FindFrom(s, c, from) == k
    decreases k - from
  {
    if from < k {
      FindFromAt(s, c, from + 1, k);
    }
  }

  /** Cutting `x + y`, where `x` lacks `c` and `y` starts with it, gives
      back `x` and what follows the separator in `y`. */
  lemma CutAt(x: string, y: string, c: char, skip: nat)
    requires (forall j :: 0 <= j < |x| ==> x[j] != c) && skip <= |y| && y != [] && y[0] == c
    ensures Cut(x + y, c, skip) == (x, y[skip..])
  {
    FindFromAt(x + y, c, 0, |x|);
    DropPrefix(x, y);
    assert (x + y)[|x| + skip..] == y[skip..];
  }

  /** `Display` with its concatenations grouped from the right. */
  lemma DisplayShape(r: SourceRef)
    ensures Display(r) == "{file '" + (r.file + ("', " + (NatToString(r.start) + ("->" + (NatToString(r.end) + "}")))))
  {
    var a := NatToString(r.start);
    var b := NatToString(r.end);
    ConcatAssoc("{file '" + r.file + "', " + a + "->", b, "}");
    ConcatAssoc("{file '" + r.file + "', " + a, "->", b + "}");
    ConcatAssoc("{file '" + r.file + "', ", a, "->" + (b + "}"));
    ConcatAssoc("{file '" + r.file, "', ", a + ("->" + (b + "}")));
    ConcatAssoc("{file '", r.file, "', " + (a + ("->" + (b + "}"))));
  }

  /** Each field is read back from its place in the rendering. */
  lemma ParseShape(file: string, a: string, b: string)
    requires forall j :: 0 <= j < |file| ==> file[j] != '\''
    requires (forall j :: 0 <= j < |a| ==> IsDigit(a[j])) && (forall j :: 0 <= j < |b| ==> IsDigit(b[j]))
    ensures ParseSourceRef("{file '" + (file + ("', " + (a + ("->" + (b + "}"))))))
         == SourceRef(file, ParseNat(a), ParseNat(b))
  {
    var t3 := a + ("->" + (b + "}"));
    var t2 := "', " + t3;
    DropPrefix("{file '", file + t2);
    CutAt(file, t2, '\'', 3);
    DropPrefix("', ", t3);
    CutAt(a, "->" + (b + "}"), '-', 2);
    DropPrefix("->", b + "}");
    CutAt(b, "}", '}', 1);
  }

  /** Rendering a range and reading it back gives the range, provided the
      file name holds no quote. */
  lemma ParseDisplay(r: SourceRef)
    requires forall j :: 0 <= j < |r.file| ==> r.file[j] != '\''
    ensures |Display(r)| >= 7 && ParseSourceRef(Display(r)) == r
  {
    DisplayShape(r);
    ParseShape(r.file, NatToString(r.start), NatToString(r.end));
    ParseNatToString(r.start);
    ParseNatToString(r.end);
  }
}
