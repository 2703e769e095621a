/**
  The owners annotation of a resource: the clusters it was distributed to, as one comma-separated
  string.
*/
module Owners {
  import opened Strings

  const OWNERS := "kosmos-io/cluster-owners"
  const COMMA := ','

  type Annotations = map<string, string>

  /** A Go map read: the empty string for a missing key. */
  function Value(anno: Annotations): string {
    if OWNERS in anno then anno[OWNERS] else ""
  }

  function NonEmpty(parts: seq<string>): seq<string> {
    if parts == [] then []
    else NonEmpty(parts[..|parts| - 1]) + (if parts[|parts| - 1] == "" then [] else [parts[|parts| - 1]])
  }

  /** The owners an annotation stands for: its non-empty pieces. */
  function OwnersOf(anno: Annotations): seq<string> {
    NonEmpty(Split(Value(anno), COMMA))
  }

  function With(names: seq<string>, name: string): seq<string> {
    if name in names then names else names + [name]
  }

  /** The annotations with one more owner. */
  function Added(anno: Annotations, clusterName: string): Annotations {
    Put(anno, With(OwnersOf(anno), clusterName))
  }

  function Put(anno: Annotations, owners: seq<string>): Annotations {
    anno[OWNERS := Join(owners, COMMA)]
  }

  method AddResourceClusters(anno: Annotations, clusterName: string) returns (anno': Annotations)
    ensures anno' == Added(anno, clusterName)
  {
    var owners := Split(Value(anno), COMMA);
    var newOwners: seq<string> := [];
    var flag := false;
    for i := 0 to |owners|
      invariant newOwners == NonEmpty(owners[..i])
      invariant flag <==> clusterName in newOwners
    {
      var v := owners[i];
      assert owners[..i + 1][..i] == owners[..i];
      if v == "" {
        continue;
      }
      ghost var before := newOwners;
      newOwners := newOwners + [v];
      assert forall x :: x in newOwners <==> x in before || x == v;
      if v == clusterName {
        flag := true;
      }
    }
    assert owners[..|owners|] == owners;
    if !flag {
      newOwners := newOwners + [clusterName];
    }
    anno' := anno[OWNERS := Join(newOwners, COMMA)];
  }

  function HasResourceClusters(anno: Annotations, clusterName: string): bool {
    clusterName in Split(Value(anno), COMMA)
  }

  function ListResourceClusters(anno: Annotations): seq<string> {
    if Value(anno) == "" then [] else Split(Value(anno), COMMA)
  }

  // ---------------------------------------------------------------------------------------------
  // Laws
  // ---------------------------------------------------------------------------------------------

  predicate GoodName(name: string) {
    name != "" && COMMA !in name
  }

  ghost predicate GoodList(names: seq<string>) {
    && (forall i :: 0 <= i < |names| ==> GoodName(names[i]))
    && (forall i, j :: 0 <= i < j < |names| ==> names[i] != names[j])
  }

  /** The pieces of an annotation that stands for `names`; `tail` says that the empty name was added last. */
  function Pieces(names: seq<string>, tail: bool): seq<string> {
    if tail then names + [""] else names
  }

  ghost predicate Represents(anno: Annotations, names: seq<string>, tail: bool) {
    GoodList(names) && Value(anno) == Join(Pieces(names, tail), COMMA)
  }

  lemma {:induction false} NonEmptyAll(parts: seq<string>)
    requires forall i :: 0 <= i < |parts| ==> parts[i] != ""
    ensures NonEmpty(parts) == parts
  {
    if parts != [] {
      NonEmptyAll(parts[..|parts| - 1]);
    }
  }

  lemma PiecesSplit(anno: Annotations, names: seq<string>, tail: bool)
    requires Represents(anno, names, tail)
    ensures Split(Value(anno), COMMA) == if names == [] then [""] else Pieces(names, tail)
    ensures names == [] <==> Value(anno) == ""
    ensures NonEmpty(Split(Value(anno), COMMA)) == names
  {
    var parts := Pieces(names, tail);
    NonEmptyAll(names);
    if names == [] {
      assert Split("", COMMA) == [""] && [""][..0] == [];
    } else {
      assert GoodName(names[0]) && parts[0] == names[0];
      forall i | 0 <= i < |parts| ensures COMMA !in parts[i] { assert i < |names| ==> GoodName(names[i]); }
      SplitJoin(parts, COMMA);
      assert tail ==> parts[..|parts| - 1] == names;
    }
  }

  lemma OwnersRepresented(anno: Annotations, names: seq<string>, tail: bool)
    requires Represents(anno, names, tail)
    ensures OwnersOf(anno) == names
  {
    PiecesSplit(anno, names, tail);
  }

  lemma PiecesMembers(names: seq<string>, tail: bool, c: string)
    ensures c in (if names == [] then [""] else Pieces(names, tail)) <==>
            c in names || (c == "" && (names == [] || tail))
  {
  }

  lemma SeenThroughSplit(anno: Annotations, parts: seq<string>, c: string)
    requires Split(Value(anno), COMMA) == parts
    ensures ListResourceClusters(anno) == if Value(anno) == "" then [] else parts
    ensures HasResourceClusters(anno, c) <==> c in parts
  {
  }

  /** Listing and testing membership see the names that the annotation stands for. */
  lemma RepresentedNames(anno: Annotations, names: seq<string>, tail: bool, c: string)
    requires Represents(anno, names, tail)
    ensures ListResourceClusters(anno) == if names == [] then [] else Pieces(names, tail)
    ensures HasResourceClusters(anno, c) <==> c in names || (c == "" && (names == [] || tail))
  {
    var parts := if names == [] then [""] else Pieces(names, tail);
    PiecesSplit(anno, names, tail);
    SeenThroughSplit(anno, parts, c);
    PiecesMembers(names, tail, c);
  }

  lemma WithPieces(names: seq<string>, name: string)
    requires GoodList(names) && COMMA !in name
    ensures var names' := if name == "" then names else With(names, name);
            GoodList(names') && With(names, name) == Pieces(names', name == "")
  {
    if name == "" {
      forall i | 0 <= i < |names| ensures names[i] != "" { assert GoodName(names[i]); }
    }
  }

  /** One add: the list grows by the name unless it has it or the name is empty, and no other annotation changes. */
  lemma AddedRepresents(anno: Annotations, names: seq<string>, tail: bool, name: string)
    requires Represents(anno, names, tail) && COMMA !in name
    ensures Represents(Added(anno, name), if name == "" then names else With(names, name), name == "")
    ensures name in names && !tail && OWNERS in anno ==> Added(anno, name) == anno
    ensures Added(anno, name) - {OWNERS} == anno - {OWNERS}
  {
    OwnersRepresented(anno, names, tail);
    WithPieces(names, name);
    PutRepresents(anno, if name == "" then names else With(names, name), name == "");
  }

  lemma PutRepresents(anno: Annotations, names: seq<string>, tail: bool)
    requires GoodList(names)
    ensures Represents(Put(anno, Pieces(names, tail)), names, tail)
    ensures Put(anno, Pieces(names, tail)) - {OWNERS} == anno - {OWNERS}
    ensures OWNERS in anno && Represents(anno, names, tail) ==> Put(anno, Pieces(names, tail)) == anno
  {
  }

  /** The names in the order in which they were first added. */
  function FirstAdds(added: seq<string>): seq<string> {
    if added == [] then [] else With(FirstAdds(added[..|added| - 1]), added[|added| - 1])
  }

  function AddAll(anno: Annotations, added: seq<string>): Annotations {
    if added == [] then anno else Added(AddAll(anno, added[..|added| - 1]), added[|added| - 1])
  }

  predicate EmptyLast(added: seq<string>) {
    added != [] && added[|added| - 1] == ""
  }

  ghost predicate CommaFree(added: seq<string>) {
    forall i :: 0 <= i < |added| ==> COMMA !in added[i]
  }

  lemma FirstAddsOfNonEmpty(init: seq<string>, last: string)
    ensures FirstAdds(NonEmpty(init + [last]))
            == if last == "" then FirstAdds(NonEmpty(init)) else With(FirstAdds(NonEmpty(init)), last)
  {
    assert (init + [last])[..|init|] == init;
    if last == "" {
      assert NonEmpty(init) + [] == NonEmpty(init);
    } else {
      assert (NonEmpty(init) + [last])[..|NonEmpty(init)|] == NonEmpty(init);
    }
  }

  /** After any adds of comma-free names the annotation stands for the non-empty ones ... */
  lemma {:induction false} AddAllRepresents(anno: Annotations, added: seq<string>)
    requires OWNERS !in anno && CommaFree(added)
    ensures Represents(AddAll(anno, added), FirstAdds(NonEmpty(added)), EmptyLast(added))
  {
    if added != [] {
      var init, last := added[..|added| - 1], added[|added| - 1];
      assert added == init + [last];
      AddAllRepresents(anno, init);
      AddStep(AddAll(anno, init), init, last);
    }
  }

  lemma PutKeepsOthers(anno: Annotations, name: string)
    ensures Added(anno, name) - {OWNERS} == anno - {OWNERS}
  {
  }

  /** ... and after any adds at all no other annotation has changed. */
  lemma {:induction false} AddAllKeepsOthers(anno: Annotations, added: seq<string>)
    ensures AddAll(anno, added) - {OWNERS} == anno - {OWNERS}
  {
    if added != [] {
      AddAllKeepsOthers(anno, added[..|added| - 1]);
      PutKeepsOthers(AddAll(anno, added[..|added| - 1]), added[|added| - 1]);
    }
  }

  lemma AddStep(anno: Annotations, init: seq<string>, last: string)
    requires Represents(anno, FirstAdds(NonEmpty(init)), EmptyLast(init)) && COMMA !in last
    ensures Represents(Added(anno, last), FirstAdds(NonEmpty(init + [last])), EmptyLast(init + [last]))
  {
    AddedRepresents(anno, FirstAdds(NonEmpty(init)), EmptyLast(init), last);
    FirstAddsOfNonEmpty(init, last);
  }

  /** What is listed and found after any adds of comma-free names. */
  lemma AddedNamesAreListed(anno: Annotations, added: seq<string>)
    requires OWNERS !in anno && CommaFree(added)
    ensures var names := FirstAdds(NonEmpty(added));
            && ListResourceClusters(AddAll(anno, added))
                == (if names == [] then [] else Pieces(names, EmptyLast(added)))
            && forall c :: HasResourceClusters(AddAll(anno, added), c) <==>
                             (c != "" && c in added) || (c == "" && (names == [] || EmptyLast(added)))
  {
    var names := FirstAdds(NonEmpty(added));
    AddAllRepresents(anno, added);
    FirstAddsIsSet(NonEmpty(added));
    NonEmptyMembers(added);
    RepresentedNames(AddAll(anno, added), names, EmptyLast(added), "");
    forall c ensures HasResourceClusters(AddAll(anno, added), c) <==>
                       (c != "" && c in added) || (c == "" && (names == [] || EmptyLast(added)))
    {
      RepresentedNames(AddAll(anno, added), names, EmptyLast(added), c);
    }
  }

  lemma {:induction false} FirstAddsIsSet(added: seq<string>)
    ensures forall c :: c in FirstAdds(added) <==> c in added
  {
    if added != [] {
      FirstAddsIsSet(added[..|added| - 1]);
      assert added == added[..|added| - 1] + [added[|added| - 1]];
    }
  }

  lemma {:induction false} NonEmptyMembers(added: seq<string>)
    ensures forall c :: c in NonEmpty(added) <==> c in added && c != ""
  {
    if added != [] {
      NonEmptyMembers(added[..|added| - 1]);
      assert added == added[..|added| - 1] + [added[|added| - 1]];
    }
  }

  // ---------------------------------------------------------------------------------------------
  // When the added names come back
  // ---------------------------------------------------------------------------------------------

  /** No name is added for the first time after an empty one. */
  ghost predicate NothingNewAfterEmpty(added: seq<string>) {
    forall i, j :: 0 <= i < j < |added| && added[i] == "" && added[j] != "" ==> added[j] in added[..i]
  }

  /** No commas, and either no empty name or one that comes after all others and is added last. */
  ghost predicate ComesBack(added: seq<string>) {
    && CommaFree(added)
    && ("" in added ==> EmptyLast(added) && NonEmpty(added) != [] && NothingNewAfterEmpty(added))
  }

  lemma NothingNewAppend(init: seq<string>, last: string)
    ensures NothingNewAfterEmpty(init + [last]) <==>
              NothingNewAfterEmpty(init)
                  && (last != "" ==> forall i :: 0 <= i < |init| && init[i] == "" ==> last in init[..i])
  {
    var all := init + [last];
    forall i | 0 <= i <= |init| ensures all[..i] == init[..i] {
    }
    if NothingNewAfterEmpty(all) {
      forall i, j | 0 <= i < j < |init| && init[i] == "" && init[j] != "" ensures init[j] in init[..i] {
        assert all[j] in all[..i];
      }
      forall i | 0 <= i < |init| && init[i] == "" && last != "" ensures last in init[..i] {
        assert all[|init|] in all[..i];
      }
    }
  }

  /** The empty name stands at the end of the first adds exactly if nothing new was added after it. */
  lemma {:induction false} EmptyAtEnd(added: seq<string>)
    requires "" in added
    ensures FirstAdds(added) == FirstAdds(NonEmpty(added)) + [""] <==> NothingNewAfterEmpty(added)
  {
    var init, last := added[..|added| - 1], added[|added| - 1];
    assert added == init + [last];
    NothingNewAppend(init, last);
    FirstAddsOfNonEmpty(init, last);
    FirstAddsIsSet(init);
    if "" !in init {
      NonEmptyAll(init);
      assert NothingNewAfterEmpty(init);
    } else {
      EmptyAtEnd(init);
      if last != "" {
        FirstAddsIsSet(NonEmpty(init));
        NonEmptyMembers(init);
        AfterEmpty(init, last);
        assert FirstAdds(added) == With(FirstAdds(init), last);
        LastDiffers(FirstAdds(init), last, With(FirstAdds(NonEmpty(init)), last), "");
      }
    }
  }

  lemma LastDiffers(s: seq<string>, x: string, t: seq<string>, y: string)
    requires x != y
    ensures s + [x] != t + [y]
  {
    assert (s + [x])[|s|] == x && (t + [y])[|t|] == y;
  }

  lemma AfterEmpty(init: seq<string>, last: string)
    requires "" in init && last != ""
    ensures NothingNewAfterEmpty(init) && last in init ==>
              forall i :: 0 <= i < |init| && init[i] == "" ==> last in init[..i]
    ensures last !in init ==> exists i :: 0 <= i < |init| && init[i] == "" && last !in init[..i]
  {
    if last in init {
      var j :| 0 <= j < |init| && init[j] == last;
      forall i | 0 <= i < |init| && init[i] == "" && NothingNewAfterEmpty(init) ensures last in init[..i] {
        if j < i {
          assert init[..i][j] == last;
        }
      }
    } else {
      var i :| 0 <= i < |init| && init[i] == "";
      assert last !in init[..i];
    }
  }

  /** After any adds at all, listing gives the distinct names in first-add order exactly if they come back. */
  lemma ListedIff(anno: Annotations, added: seq<string>)
    requires OWNERS !in anno
    ensures ListResourceClusters(AddAll(anno, added)) == FirstAdds(added) <==> ComesBack(added)
  {
    FirstAddsIsSet(added);
    if !CommaFree(added) {
      var i :| 0 <= i < |added| && COMMA in added[i];
      assert added[i] in FirstAdds(added);
      JoinSplit(Value(AddAll(anno, added)), COMMA);
    } else {
      AddedNamesAreListed(anno, added);
      NonEmptyMembers(added);
      FirstAddsIsSet(NonEmpty(added));
      if "" in added {
        EmptyAtEnd(added);
        assert "" in FirstAdds(added);
      } else {
        NonEmptyAll(added);
      }
    }
  }

  /** An empty name added first is lost by the next add, and a name with a comma comes back as two. */
  lemma LostNames()
    ensures ListResourceClusters(AddAll(map[], ["", "a"])) != FirstAdds(["", "a"])
    ensures ListResourceClusters(AddAll(map[], ["a,b"])) != FirstAdds(["a,b"])
  {
    var x, y := ["", "a"], ["a,b"];
    assert x[0] == "" && x[1] == "a" && x[1] !in x[..0];
    assert "" in x && !EmptyLast(x);
    assert "a,b"[1] == COMMA && COMMA in y[0];
    ListedIff(map[], x);
    ListedIff(map[], y);
  }
}
