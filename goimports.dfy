/** The import block of a generated Go file (file/goimports.go): a set of
  * imports, split into standard-library and other packages, each group
  * sorted by package path and printed as one `import ( ... )` block. */
module Imports {
  import opened Strings

  datatype SingleImport = SingleImport(pkg: string, alias: string, isStd: bool)

  function PkgOf(imp: SingleImport): string {
    imp.pkg
  }

  /** goImports.add on the set of imports: an empty package path is
    * ignored, anything else is inserted once. */
  function Added(entries: set<SingleImport>, pkg: string, alias: string, isStd: bool): (r: set<SingleImport>)
    ensures pkg == "" ==> r == entries
    ensures pkg != "" ==> SingleImport(pkg, alias, isStd) in r
    ensures entries <= r && forall x :: x in r && x !in entries ==> x == SingleImport(pkg, alias, isStd)
  {
    if pkg == "" then entries else entries + {SingleImport(pkg, alias, isStd)}
  }

  /** Adding the same import again changes nothing. */
  lemma AddIdempotent(entries: set<SingleImport>, pkg: string, alias: string, isStd: bool)
    ensures Added(Added(entries, pkg, alias, isStd), pkg, alias, isStd) == Added(entries, pkg, alias, isStd)
  {
  }

  /** The order of the calls to add does not matter. */
  lemma AddCommutes(entries: set<SingleImport>, p: string, a: string, s: bool, p': string, a': string, s': bool)
    ensures Added(Added(entries, p, a, s), p', a', s') == Added(Added(entries, p', a', s'), p, a, s)
  {
  }

  /** No import in the set has an empty package path. */
  ghost predicate NoEmptyPkg(entries: set<SingleImport>) {
    forall x :: x in entries ==> x.pkg != ""
  }

  lemma AddKeepsNoEmptyPkg(entries: set<SingleImport>, pkg: string, alias: string, isStd: bool)
    requires NoEmptyPkg(entries)
    ensures NoEmptyPkg(Added(entries, pkg, alias, isStd))
  {
  }

  ghost function StdPart(entries: set<SingleImport>): set<SingleImport> {
    set x | x in entries && x.isStd
  }

  ghost function OtherPart(entries: set<SingleImport>): set<SingleImport> {
    set x | x in entries && !x.isStd
  }

  /** std and other hold each import of the set exactly once, the standard
    * ones in std, and each is sorted by package path. */
  ghost predicate IsSplitOf(entries: set<SingleImport>, std: seq<SingleImport>, other: seq<SingleImport>) {
    && multiset(std) == multiset(StdPart(entries))
    && multiset(other) == multiset(OtherPart(entries))
    && SortedBy(std, PkgOf) && SortedBy(other, PkgOf)
  }

  /** A split holds every import of the set once, in the group its isStd
    * says. */
  lemma SplitPartitions(entries: set<SingleImport>, std: seq<SingleImport>, other: seq<SingleImport>, x: SingleImport)
    requires IsSplitOf(entries, std, other)
    ensures x in std <==> x in entries && x.isStd
    ensures x in other <==> x in entries && !x.isStd
    ensures multiset(std)[x] <= 1 && multiset(other)[x] <= 1
  {
    assert x in std <==> x in multiset(std);
    assert x in other <==> x in multiset(other);
  }

  /** The import lines as goimports.formatted writes them, one per import. */
  function ImportLine(imp: SingleImport): (line: string)
    ensures |line| > 0 && line[0] == '\t'
  {
    "\t" + (if imp.alias != "" then imp.alias + " " else "") + "\"" + imp.pkg + "\""
  }

  /** importReader: the pieces written for each import in turn. */
  function ImportParts(imports: seq<SingleImport>): (parts: seq<string>)
    ensures |parts| == 4 * |imports| + 2 * CountAliased(imports)
  {
    if imports == [] then []
    else
      var imp := imports[0];
      ["\t"] + (if imp.alias != "" then [imp.alias, " "] else []) + ["\"", imp.pkg, "\"\n"] + ImportParts(imports[1..])
  }

  function CountAliased(imports: seq<SingleImport>): nat {
    if imports == [] then 0 else (if imports[0].alias != "" then 1 else 0) + CountAliased(imports[1..])
  }

  /** The parts of the import block in formatted's order. */
  function BlockParts(std: seq<SingleImport>, other: seq<SingleImport>): seq<string> {
    ["import (\n"] + ImportParts(std) + (if |std| > 0 && |other| > 0 then ["\n"] else [])
      + ImportParts(other) + [")\n"]
  }

  function Cat(parts: seq<string>): string {
    if parts == [] then "" else parts[0] + Cat(parts[1..])
  }

  /** The lines, each followed by a newline. */
  function LinesText(ls: seq<string>): string {
    if ls == [] then "" else ls[0] + "\n" + LinesText(ls[1..])
  }

  function ImportLines(imports: seq<SingleImport>): (ls: seq<string>)
    ensures |ls| == |imports|
    ensures forall i :: 0 <= i < |imports| ==> ls[i] == ImportLine(imports[i])
  {
    if imports == [] then [] else [ImportLine(imports[0])] + ImportLines(imports[1..])
  }

  /** The lines of the block: the opening line, the standard imports, a
    * blank line between the groups, the other imports, the closing line. */
  function BlockLines(std: seq<SingleImport>, other: seq<SingleImport>): (ls: seq<string>)
    ensures |ls| == |std| + |other| + 2 + (if |std| > 0 && |other| > 0 then 1 else 0)
  {
    ["import ("] + ImportLines(std) + (if |std| > 0 && |other| > 0 then [""] else []) + ImportLines(other) + [")"]
  }

  /** The block is empty when there are no imports. */
  function Block(entries: set<SingleImport>, std: seq<SingleImport>, other: seq<SingleImport>): string {
    if |entries| == 0 then "" else Cat(BlockParts(std, other))
  }

  lemma {:induction false} CatAppend(a: seq<string>, b: seq<string>)
    ensures Cat(a + b) == Cat(a) + Cat(b)
    decreases |a|
  {
    if a == [] {
      assert a + b == b;
    } else {
      assert (a + b)[0] == a[0] && (a + b)[1..] == a[1..] + b;
      CatAppend(a[1..], b);
    }
  }

  lemma {:induction false} LinesTextAppend(a: seq<string>, b: seq<string>)
    ensures LinesText(a + b) == LinesText(a) + LinesText(b)
    decreases |a|
  {
    if a == [] {
      assert a + b == b;
    } else {
      assert (a + b)[0] == a[0] && (a + b)[1..] == a[1..] + b;
      LinesTextAppend(a[1..], b);
    }
  }

  lemma LinesTextOne(l: string)
    ensures LinesText([l]) == l + "\n"
  {
    assert [l][1..] == [];
  }

  lemma CatPieces(a: string, b: string, c: string)
    ensures Cat([a, b, c]) == a + b + c
  {
    assert [a, b, c][1..] == [b, c] && [b, c][1..] == [c] && [c][1..] == [];
    assert Cat([c]) == c + "" == c;
  }

  /** The pieces of one import spell out its line. */
  lemma ImportPiecesAreLine(imp: SingleImport)
    ensures Cat(["\t"] + (if imp.alias != "" then [imp.alias, " "] else []) + ["\"", imp.pkg, "\"\n"])
         == ImportLine(imp) + "\n"
  {
    var mid: seq<string> := if imp.alias != "" then [imp.alias, " "] else [];
    CatAppend(["\t"] + mid, ["\"", imp.pkg, "\"\n"]);
    CatAppend(["\t"], mid);
    CatPieces("\"", imp.pkg, "\"\n");
    assert Cat(["\t"]) == "\t" by { assert ["\t"][1..] == []; }
    var a := if imp.alias != "" then imp.alias + " " else "";
    if imp.alias != "" {
      assert Cat(mid) == a by { assert mid[1..] == [" "] && mid[1..][1..] == []; }
    } else {
      assert Cat(mid) == a;
    }
    assert "\"" + imp.pkg + "\"\n" == "\"" + imp.pkg + "\"" + "\n";
  }

  lemma {:induction false} ImportPartsAreLines(imports: seq<SingleImport>)
    ensures Cat(ImportParts(imports)) == LinesText(ImportLines(imports))
    decreases |imports|
  {
    if imports != [] {
      var imp := imports[0];
      var head := ["\t"] + (if imp.alias != "" then [imp.alias, " "] else []) + ["\"", imp.pkg, "\"\n"];
      assert ImportParts(imports) == head + ImportParts(imports[1..]);
      CatAppend(head, ImportParts(imports[1..]));
      ImportPiecesAreLine(imp);
      ImportPartsAreLines(imports[1..]);
      assert ImportLines(imports) == [ImportLine(imp)] + ImportLines(imports[1..]);
      LinesTextAppend([ImportLine(imp)], ImportLines(imports[1..]));
      LinesTextOne(ImportLine(imp));
    }
  }

  lemma CatOne(x: string)
    ensures Cat([x]) == x
  {
    assert [x][1..] == [];
    assert x + "" == x;
  }

  lemma HeadIsLines(std: seq<SingleImport>)
    ensures Cat(["import (\n"] + ImportParts(std)) == LinesText(["import ("] + ImportLines(std))
  {
    ImportPartsAreLines(std);
    CatAppend(["import (\n"], ImportParts(std));
    LinesTextAppend(["import ("], ImportLines(std));
    CatOne("import (\n");
    LinesTextOne("import (");
  }

  lemma TailIsLines(blank: bool, other: seq<SingleImport>)
    ensures Cat((if blank then ["\n"] else []) + ImportParts(other) + [")\n"])
         == LinesText((if blank then [""] else []) + ImportLines(other) + [")"])
  {
    var sepP: seq<string> := if blank then ["\n"] else [];
    var sepL: seq<string> := if blank then [""] else [];
    ImportPartsAreLines(other);
    CatAppend(sepP + ImportParts(other), [")\n"]);
    CatAppend(sepP, ImportParts(other));
    LinesTextAppend(sepL + ImportLines(other), [")"]);
    LinesTextAppend(sepL, ImportLines(other));
    CatOne(")\n");
    LinesTextOne(")");
    if blank {
      CatOne("\n");
      LinesTextOne("");
    }
  }

  lemma Regroup<T>(a: seq<T>, b: seq<T>, c: seq<T>, d: seq<T>, e: seq<T>)
    ensures a + b + c + d + e == (a + b) + (c + d + e)
  {
  }

  /** The text formatted writes is the block's lines, each ended by a
    * newline. */
  lemma BlockIsLines(std: seq<SingleImport>, other: seq<SingleImport>)
    ensures Cat(BlockParts(std, other)) == LinesText(BlockLines(std, other))
  {
    var blank := |std| > 0 && |other| > 0;
    var p1, p2 := ["import (\n"] + ImportParts(std), (if blank then ["\n"] else []) + ImportParts(other) + [")\n"];
    var l1, l2 := ["import ("] + ImportLines(std), (if blank then [""] else []) + ImportLines(other) + [")"];
    Regroup(["import (\n"], ImportParts(std), if blank then ["\n"] else [], ImportParts(other), [")\n"]);
    Regroup(["import ("], ImportLines(std), if blank then [""] else [], ImportLines(other), [")"]);
    CatAppend(p1, p2);
    LinesTextAppend(l1, l2);
    HeadIsLines(std);
    TailIsLines(blank, other);
  }

  /** formatted puts a blank line in the block exactly when both groups
    * have imports. */
  lemma BlankLineIffBothGroups(std: seq<SingleImport>, other: seq<SingleImport>)
    ensures "" in BlockLines(std, other) <==> |std| > 0 && |other| > 0
  {
    var ls := BlockLines(std, other);
    if |std| > 0 && |other| > 0 {
      assert ls[|std| + 1] == "";
    } else {
      forall i | 0 <= i < |ls| ensures ls[i] != "" {
        if 1 <= i <= |std| {
          assert ls[i] == ImportLines(std)[i - 1];
        } else if |std| < i <= |std| + |other| {
          assert ls[i] == ImportLines(other)[i - 1 - |std|];
        }
      }
    }
  }

  /** The imports of each group appear in the block in their sorted order,
    * the standard ones first. */
  lemma ImportsInOrder(std: seq<SingleImport>, other: seq<SingleImport>, i: nat)
    ensures i < |std| ==> BlockLines(std, other)[1 + i] == ImportLine(std[i])
    ensures var off := 1 + |std| + (if |std| > 0 && |other| > 0 then 1 else 0);
            i < |other| ==> BlockLines(std, other)[off + i] == ImportLine(other[i])
  {
  }

  /** One more import lands in exactly one of the two groups. */
  lemma PartsGrow(done: set<SingleImport>, x: SingleImport)
    requires x !in done
    ensures x.isStd ==> multiset(StdPart(done + {x})) == multiset(StdPart(done)) + multiset{x}
    ensures x.isStd ==> OtherPart(done + {x}) == OtherPart(done)
    ensures !x.isStd ==> StdPart(done + {x}) == StdPart(done)
    ensures !x.isStd ==> multiset(OtherPart(done + {x})) == multiset(OtherPart(done)) + multiset{x}
  {
    if x.isStd {
      assert StdPart(done + {x}) == StdPart(done) + {x};
    } else {
      assert OtherPart(done + {x}) == OtherPart(done) + {x};
    }
  }

  // ---------------------------------------------------------------------------
  // The set as an object

  /** goImports; a Go map used as a set, updated in place. */
  class GoImports {
    var entries: set<SingleImport>

    constructor ()
      ensures entries == {}
    {
      entries := {};
    }

    method Add(pkg: string, alias: string, isStd: bool)
      modifies this
      ensures entries == Added(old(entries), pkg, alias, isStd)
    {
      if pkg == "" {
        return;
      }
      var si := SingleImport(pkg, alias, isStd);
      if si in entries {
        return;
      }
      entries := entries + {si};
    }

    /** split: the standard and the other imports, each sorted by package
      * path (the sort is not stable, so imports of one path under two
      * aliases may come in either order). */
    method Split() returns (std: seq<SingleImport>, other: seq<SingleImport>)
      ensures IsSplitOf(entries, std, other)
    {
      var s: seq<SingleImport> := [];
      var o: seq<SingleImport> := [];
      var rest := entries;
      while rest != {}
        invariant rest <= entries
        invariant multiset(s) == multiset(StdPart(entries - rest))
        invariant multiset(o) == multiset(OtherPart(entries - rest))
        decreases |rest|
      {
        var x :| x in rest;
        ghost var done := entries - rest;
        assert entries - (rest - {x}) == done + {x};
        PartsGrow(done, x);
        if x.isStd {
          s := s + [x];
        } else {
          o := o + [x];
        }
        rest := rest - {x};
      }
      assert entries - rest == entries;
      std := SortByKey(s, PkgOf);
      other := SortByKey(o, PkgOf);
    }

    /** formatted: nothing for an empty set, otherwise the block of the
      * split imports. */
    method Formatted() returns (text: string)
      ensures entries == {} ==> text == ""
      ensures entries != {} ==> exists std, other :: IsSplitOf(entries, std, other) && text == Block(entries, std, other)
    {
      if |entries| == 0 {
        return "";
      }
      var std, other := Split();
      text := Cat(BlockParts(std, other));
      assert text == Block(entries, std, other);
    }
  }
}
