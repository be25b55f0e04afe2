/** Concrete valid programs whose successful closeout confuses two receipts (governance/closeout.py): claims
    lost to the completion receipt, consumer acceptance overwritten by another requirement's receipt, and
    consumer acceptance given to a requirement that never had it. */
module CloseoutCollisions {
  import opened Prelude
  import opened DependencySearch
  import opened ConstructionProgram
  import opened Ordering
  import opened Closeout
  import opened CloseoutEffect
  import opened CloseoutNames

  // ----- Work ids that are kept as they are

  predicate Plain(w: string) {
    && (forall k :: 0 <= k < |w| ==> SafeChar(w[k]))
    && (w != [] ==> w[0] != '-' && w[|w| - 1] != '-')
  }

  lemma PlainWorkIsSafe(w: string)
    requires Plain(w)
    ensures SafeWork(w) == w
  {
    PlainIsNotSquashed(w);
  }

  lemma {:induction false} PlainIsNotSquashed(w: string)
    requires forall k :: 0 <= k < |w| ==> SafeChar(w[k])
    ensures Squash(w, false) == w
  {
    if w != [] {
      PlainIsNotSquashed(w[1..]);
    }
  }

  // ----- A program "P" with one package

  ghost function OnePackage(work: string, rs: seq<string>): Program {
    Program("P", Active, "owner", ["a"], rs, ["k"], [Package(work, "P", Active, ["a"], rs, "k", [], map[], {Mapped})])
  }

  ghost function Asking(work: string): Request {
    Request(1, "P", work, true, map[Mapped := Claim(Proven, [], None)], {})
  }

  ghost function Disk(work: string, rs: seq<string>, refs: map<string, string>, evidence: map<string, Document>): Files
  {
    Files(refs, Some("p.json"), None, map["p.json" := OnePackage(work, rs)], evidence)
  }

  lemma OnePackageIsValid(work: string, rs: seq<string>)
    requires work != "" && CleanList(rs) && rs != []
    ensures ValidProgram(OnePackage(work, rs))
  {
    var program := OnePackage(work, rs);
    var ps := program.packages;
    assert PackageOk(ps[0], program);
    assert DependenciesOk(ps);
    var g := GraphOf(ps);
    assert g.Keys == {work} && g[work] == [];
    TopologicalMeansAcyclic(g, [work]);
  }

  lemma AskingIsAdmitted(work: string, rs: seq<string>, refs: map<string, string>, evidence: map<string, Document>,
                         sha: string)
    requires work != "" && CleanList(rs) && rs != [] && |sha| >= 12
    ensures
      var files, program := Disk(work, rs, refs, evidence), OnePackage(work, rs);
      && Admitted(files, Asking(work), sha) == Success(("p.json", program, program.packages[0], Asking(work).claims))
      && Completing(files, Asking(work), sha)
  {
    var request, program := Asking(work), OnePackage(work, rs);
    OnePackageIsValid(work, rs);
    assert program.packages[0].workId == work;
    assert HasId(program.packages, work) && Lookup(program.packages, work) == program.packages[0];
    assert request.claims.Keys == {Mapped} && ClaimOk(request.claims[Mapped], ["a"]);
    assert Dedup<string>([]) == [];
    assert Normalized(request.claims) == request.claims;
  }

  lemma AskingSucceeds(work: string, rs: seq<string>, refs: map<string, string>, evidence: map<string, Document>,
                       sha: string)
    requires work != "" && CleanList(rs) && rs != [] && |sha| >= 12
    requires forall i :: 0 <= i < |rs| ==> CurrentClaims(Disk(work, rs, refs, evidence), rs[i]).Success?
    ensures Succeeds(Disk(work, rs, refs, evidence), Asking(work), sha, "7")
  {
    AskingIsAdmitted(work, rs, refs, evidence, sha);
    LoopSucceeds(Disk(work, rs, refs, evidence), rs, Asking(work).claims, work, sha, "7");
  }

  predicate AcceptedAt(files: Files, q: string) {
    CurrentClaims(files, q).Success? && ClaimProven(CurrentClaims(files, q).value, ConsumerAccepted)
  }

  /** After a closeout that does not lose q to the completion receipt, q is accepted if its source was. */
  lemma SourceDecides(work: string, rs: seq<string>, refs: map<string, string>, evidence: map<string, Document>,
                      sha: string, q: string)
    requires work != "" && CleanList(rs) && rs != [] && |sha| >= 12
    requires forall i :: 0 <= i < |rs| ==> CurrentClaims(Disk(work, rs, refs, evidence), rs[i]).Success?
    requires PointerAfter(refs, rs, work, sha, q) != Some(CompletionRef("P", sha))
    requires Rewritten(PointerAfter(refs, rs, work, sha, q), rs, work, sha)
    ensures
      var files, request := Disk(work, rs, refs, evidence), Asking(work);
      var source := ClaimsAt(evidence, Origin(refs, rs, work, sha, PointerAfter(refs, rs, work, sha, q)));
      && Succeeds(files, request, sha, "7")
      && source.Success?
      && CurrentClaims(After(files, request, sha, "7"), q).Success?
      && (AcceptedAt(After(files, request, sha, "7"), q) <==> ClaimProven(source.value, ConsumerAccepted))
  {
    AskingIsAdmitted(work, rs, refs, evidence, sha);
    AskingSucceeds(work, rs, refs, evidence, sha);
    hide Apply, Admitted, SafeWork, ReceiptRef, CompletionRef, Origin, Rewritten, PointerAfter, CurrentClaims, ClaimsAt;
    CloseoutClaims(Disk(work, rs, refs, evidence), Asking(work), sha, "7", q);
  }

  lemma CompletionTakes(work: string, rs: seq<string>, refs: map<string, string>, evidence: map<string, Document>,
                        sha: string, q: string)
    requires work != "" && CleanList(rs) && rs != [] && |sha| >= 12
    requires forall i :: 0 <= i < |rs| ==> CurrentClaims(Disk(work, rs, refs, evidence), rs[i]).Success?
    requires PointerAfter(refs, rs, work, sha, q) == Some(CompletionRef("P", sha))
    ensures
      var files, request := Disk(work, rs, refs, evidence), Asking(work);
      Succeeds(files, request, sha, "7") && CurrentClaims(After(files, request, sha, "7"), q).Failure?
  {
    AskingIsAdmitted(work, rs, refs, evidence, sha);
    AskingSucceeds(work, rs, refs, evidence, sha);
    hide Apply, Admitted, SafeWork, ReceiptRef, CompletionRef, Origin, Rewritten, PointerAfter, CurrentClaims, ClaimsAt;
    CloseoutClaims(Disk(work, rs, refs, evidence), Asking(work), sha, "7", q);
  }

  // ----- Failing inputs

  /** Requirement "P" of a program "P" whose last package is called "completion": its new receipt is
      overwritten by the completion receipt and every claim is lost. */
  lemma ProvenCanBeLost(sha: string)
    requires |sha| >= 12
    ensures
      var files := Disk("completion", ["P"], map["P" := "old"], map["old" := Receipt(ALL_PROVEN)]);
      && Succeeds(files, Asking("completion"), sha, "7")
      && AcceptedAt(files, "P")
      && CurrentClaims(After(files, Asking("completion"), sha, "7"), "P").Failure?
  {
    PlainWorkIsSafe("completion");
    NamedLikeCompletion("completion", sha);
  }

  lemma NamedLikeCompletion(work: string, sha: string)
    requires |sha| >= 12 && work != "" && SafeWork(work) == "completion"
    ensures
      var files := Disk(work, ["P"], map["P" := "old"], map["old" := Receipt(ALL_PROVEN)]);
      && Succeeds(files, Asking(work), sha, "7")
      && AcceptedAt(files, "P")
      && CurrentClaims(After(files, Asking(work), sha, "7"), "P").Failure?
  {
    hide SafeWork, ReceiptRef, CompletionRef, Apply, Admitted;
    assert "P" + ("-" + "completion") == "P" + "-completion";
    NamesCollide("P", "P", work, sha);
    CompletionTakes(work, ["P"], map["P" := "old"], map["old" := Receipt(ALL_PROVEN)], sha, "P");
  }

  /** Requirement "Q" outside the package whose receipt has the completion receipt's name. */
  lemma OutsiderCanBeLost(sha: string)
    requires |sha| >= 12
    ensures
      var name := CompletionRef("P", sha);
      var files := Disk("W", ["R"], map["Q" := name], map[name := Receipt(ALL_PROVEN)]);
      && Succeeds(files, Asking("W"), sha, "7")
      && AcceptedAt(files, "Q")
      && CurrentClaims(After(files, Asking("W"), sha, "7"), "Q").Failure?
  {
    var name := CompletionRef("P", sha);
    assert name[0] == 'g';
    CompletionTakes("W", ["R"], map["Q" := name], map[name := Receipt(ALL_PROVEN)], sha, "Q");
  }

  /** "R" closed by work "1-W" and "R-1" closed by work "W" at the same commit have one receipt: the
      second closeout takes the consumer acceptance of "R" away. */
  lemma AcceptanceCanBeOverwritten(sha: string)
    requires |sha| >= 12
    ensures ReceiptRef("R", "1-W", sha) == ReceiptRef("R-1", "W", sha)
    ensures
      var name := ReceiptRef("R", "1-W", sha);
      var files := Disk("W", ["R-1"], map["R" := name], map[name := Receipt(ALL_PROVEN)]);
      && Succeeds(files, Asking("W"), sha, "7")
      && AcceptedAt(files, "R")
      && CurrentClaims(After(files, Asking("W"), sha, "7"), "R").Success?
      && !AcceptedAt(After(files, Asking("W"), sha, "7"), "R")
  {
    PlainWorkIsSafe("1-W");
    PlainWorkIsSafe("W");
    assert "R" + ("-" + "1-W") == "R-1" + ("-" + "W");
    NamesCollide("R-1", "P", "W", sha);
    ReceiptIsNamed("R", "1-W", sha);
    hide Apply, Admitted, SafeWork, ReceiptRef, CompletionRef, Disk, Asking;
    Overwritten(ReceiptRef("R", "1-W", sha), sha);
  }

  lemma Overwritten(name: string, sha: string)
    requires |sha| >= 12 && name != "" && name == ReceiptRef("R-1", "W", sha) && name != CompletionRef("P", sha)
    ensures
      var files := Disk("W", ["R-1"], map["R" := name], map[name := Receipt(ALL_PROVEN)]);
      && Succeeds(files, Asking("W"), sha, "7")
      && AcceptedAt(files, "R")
      && CurrentClaims(After(files, Asking("W"), sha, "7"), "R").Success?
      && !AcceptedAt(After(files, Asking("W"), sha, "7"), "R")
  {
    hide Apply, Admitted, SafeWork, ReceiptRef, CompletionRef;
    var rs, refs, evidence := ["R-1"], map["R" := name], map[name := Receipt(ALL_PROVEN)];
    assert Some(name) == Some(ReceiptRef(rs[0], "W", sha));
    OriginOfReceipt(refs, rs, "W", sha, 0);
    assert rs[..0] == [];
    SourceDecides("W", rs, refs, evidence, sha, "R");
  }

  /** Two requirements of one package: "q" points to the file its sibling's new receipt gets, and its turn
      comes second, so it is given the consumer acceptance of "r". */
  lemma AcceptanceCanBeGained(sha: string)
    requires |sha| >= 12
    ensures
      var name := ReceiptRef("r", "W", sha);
      var files := Disk("W", ["r", "q"], map["r" := "old", "q" := name],
                        map["old" := Receipt(ALL_PROVEN), name := Receipt(NO_EVIDENCE)]);
      && Succeeds(files, Asking("W"), sha, "7")
      && CurrentClaims(files, "q").Success? && !AcceptedAt(files, "q")
      && AcceptedAt(After(files, Asking("W"), sha, "7"), "q")
  {
    ReceiptIsNamed("r", "W", sha);
    PlainWorkIsSafe("W");
    NamesCollide("q", "P", "W", sha);
    assert ReceiptRef("r", "W", sha)[0] == 'g';
    hide Apply, Admitted, SafeWork, ReceiptRef, CompletionRef, Disk, Asking;
    Gained(ReceiptRef("r", "W", sha), sha);
  }

  lemma Gained(name: string, sha: string)
    requires |sha| >= 12 && name != "" && name != "old" && name == ReceiptRef("r", "W", sha)
    requires ReceiptRef("q", "W", sha) != CompletionRef("P", sha)
    ensures
      var files := Disk("W", ["r", "q"], map["r" := "old", "q" := name],
                        map["old" := Receipt(ALL_PROVEN), name := Receipt(NO_EVIDENCE)]);
      && Succeeds(files, Asking("W"), sha, "7")
      && CurrentClaims(files, "q").Success? && !AcceptedAt(files, "q")
      && AcceptedAt(After(files, Asking("W"), sha, "7"), "q")
  {
    hide Apply, Admitted, SafeWork, ReceiptRef, CompletionRef;
    var rs, refs := ["r", "q"], map["r" := "old", "q" := name];
    var evidence := map["old" := Receipt(ALL_PROVEN), name := Receipt(NO_EVIDENCE)];
    OriginOfReceipt(refs, rs, "W", sha, 1);
    assert rs[..1] == ["r"];
    OriginOfReceipt(refs, ["r"], "W", sha, 0);
    assert ["r"][..0] == [];
    assert Some(ReceiptRef("q", "W", sha)) == Some(ReceiptRef(rs[1], "W", sha));
    SourceDecides("W", rs, refs, evidence, sha, "q");
  }
}
