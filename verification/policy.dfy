/**
 * The test-policy rewrite. The fetched policy document is parsed into an
 * element tree whose node texts are overwritten in place: the package id,
 * `general/enabled` and the package name, in that order. A path that is
 * absent makes the lookup yield nothing, and writing its text raises.
 */
module Policy {
  import opened PyText
  import opened Jamf

  /** The rewritten document, or the first of the three paths that was absent. */
  datatype Edit = Edited(doc: PolicyDoc) | Missing(path: string)

  /**
   * The policy after activation with a new package: the package reference now
   * names the new package's id and file name, the policy is disabled, and every
   * other node keeps its text, `general/id` included.
   */
  function Rewritten(doc: PolicyDoc, packid: string, name: string): (e: Edit)
    ensures e.Edited? <==> PkgIdPath in doc && EnabledPath in doc && PkgNamePath in doc
    ensures e.Missing? ==> e.path !in doc
    ensures e.Missing? ==> e.path == PkgIdPath || e.path == EnabledPath || e.path == PkgNamePath
    ensures e.Edited? ==> e.doc.Keys == doc.Keys
    ensures e.Edited? ==>
      e.doc[PkgIdPath] == packid && e.doc[PkgNamePath] == name && e.doc[EnabledPath] == "false"
    ensures e.Edited? ==> forall p :: p in doc && p != PkgIdPath && p != EnabledPath && p != PkgNamePath ==>
      e.doc[p] == doc[p]
  {
    if PkgIdPath !in doc then Missing(PkgIdPath)
    else
      var withId := doc[PkgIdPath := packid];
      if EnabledPath !in withId then Missing(EnabledPath)
      else
        var disabled := withId[EnabledPath := "false"];
        if PkgNamePath !in disabled then Missing(PkgNamePath)
        else Edited(disabled[PkgNamePath := name])
  }

  /** The policy's own id survives the rewrite, so the PUT goes back to the policy that was fetched. */
  lemma GeneralIdKept(doc: PolicyDoc, packid: string, name: string)
    requires Rewritten(doc, packid, name).Edited?
    ensures var d := Rewritten(doc, packid, name).doc;
      (GeneralIdPath in d <==> GeneralIdPath in doc) &&
      (GeneralIdPath in doc ==> d[GeneralIdPath] == doc[GeneralIdPath])
  {
  }

  /** Activating an already activated policy with the same package changes nothing more. */
  lemma RewriteIdempotent(doc: PolicyDoc, packid: string, name: string)
    requires Rewritten(doc, packid, name).Edited?
    ensures var d := Rewritten(doc, packid, name).doc;
      Rewritten(d, packid, name) == Edited(d)
  {
    var d := Rewritten(doc, packid, name).doc;
    var d' := Rewritten(d, packid, name).doc;
    assert d'.Keys == d.Keys;
    forall p | p in d ensures d'[p] == d[p] {
    }
    assert d' == d;
  }

  /**
   * The rewrite reads nothing but the three nodes' presence: two documents that
   * agree everywhere else and both hold the three nodes are rewritten alike.
   */
  lemma RewriteIgnoresOldPackage(a: PolicyDoc, b: PolicyDoc, packid: string, name: string)
    requires a.Keys == b.Keys
    requires forall p :: p in a && p != PkgIdPath && p != EnabledPath && p != PkgNamePath ==> a[p] == b[p]
    ensures Rewritten(a, packid, name) == Rewritten(b, packid, name)
  {
    var ea := Rewritten(a, packid, name);
    var eb := Rewritten(b, packid, name);
    if ea.Edited? {
      forall p | p in ea.doc ensures ea.doc[p] == eb.doc[p] {
      }
      assert ea.doc == eb.doc;
    }
  }

  /** An element tree built from a policy document, whose node texts are written in place. */
  class PolicyTree {
    var nodes: PolicyDoc

    constructor (doc: PolicyDoc)
      ensures nodes == doc
    {
      nodes := doc;
    }

    /** `findtext(path)`: the node's text, or nothing when there is no such node. */
    function FindText(path: string): (t: Option<string>)
      reads this
      ensures t.Some? <==> path in nodes
      ensures t.Some? ==> t.value == nodes[path]
    {
      if path in nodes then Some(nodes[path]) else None
    }

    /** `find(path).text = text`; `found` is false where `upload` raises on a missing node. */
    method SetText(path: string, text: string) returns (found: bool)
      modifies this
      ensures found <==> path in old(nodes)
      ensures nodes == if found then old(nodes)[path := text] else old(nodes)
    {
      found := path in nodes;
      if found {
        nodes := nodes[path := text];
      }
    }

    /**
     * The three assignments of the activation, in the order `upload` makes them. On success the
     * tree holds the activated document; otherwise `missing` names the absent node
     * and the assignments made before it stay in the tree.
     */
    method Activate(packid: string, name: string) returns (missing: Option<string>)
      modifies this
      ensures Rewritten(old(nodes), packid, name).Edited? <==> missing.None?
      ensures missing.None? ==> nodes == Rewritten(old(nodes), packid, name).doc
      ensures missing.Some? ==> missing.value == Rewritten(old(nodes), packid, name).path
      ensures missing == Some(PkgIdPath) ==> nodes == old(nodes)
      ensures missing == Some(EnabledPath) ==> nodes == old(nodes)[PkgIdPath := packid]
      ensures missing == Some(PkgNamePath) ==> nodes == old(nodes)[PkgIdPath := packid][EnabledPath := "false"]
    {
      var found := SetText(PkgIdPath, packid);
      if !found {
        return Some(PkgIdPath);
      }
      found := SetText(EnabledPath, "false");
      if !found {
        return Some(EnabledPath);
      }
      found := SetText(PkgNamePath, name);
      if !found {
        return Some(PkgNamePath);
      }
      missing := None;
    }
  }

  /** A policy pointing at package 5 and enabled, activated with package 42 `Foo-2.0.pkg`. */
  lemma ActivationExample()
    ensures var doc := map[PkgIdPath := "5", PkgNamePath := "Foo-1.0.pkg", EnabledPath := "true",
                           GeneralIdPath := "7"];
      Rewritten(doc, "42", "Foo-2.0.pkg") ==
        Edited(map[PkgIdPath := "42", PkgNamePath := "Foo-2.0.pkg", EnabledPath := "false",
                   GeneralIdPath := "7"])
  {
    var doc := map[PkgIdPath := "5", PkgNamePath := "Foo-1.0.pkg", EnabledPath := "true",
                   GeneralIdPath := "7"];
    var want := map[PkgIdPath := "42", PkgNamePath := "Foo-2.0.pkg", EnabledPath := "false",
                    GeneralIdPath := "7"];
    var got := Rewritten(doc, "42", "Foo-2.0.pkg").doc;
    assert got.Keys == want.Keys;
    assert got == want;
  }
}
