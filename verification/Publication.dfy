/** Staged publication: public-destined artifacts stay private until a leak scan of the staged set
    passes, and are then promoted. */
module Publication {
  import opened ChessTypes

  datatype Visibility = Public | Private | Admin

  /** A manifest entry. */
  datatype Meta = Meta(visibility: Visibility, staged: bool)

  /** Directory and file name. */
  datatype Artifact = Artifact(directory: string, name: string)

  type Manifest = map<Artifact, Meta>

  /** What reading a file gives: its text, an OSError, or bytes that are not UTF-8. */
  datatype Content = Text(text: string) | Unreadable | Undecodable

  predicate IsStaged(m: Manifest, a: Artifact) { a in m && m[a].staged && m[a].visibility != Public }

  predicate IsPublic(m: Manifest, a: Artifact) { a in m && m[a].visibility == Public }

  predicate Contains(text: string, token: string) {
    exists i | 0 <= i <= |text| :: StandsAt(text, token, i)
  }

  predicate StandsAt(text: string, token: string, i: nat)
    requires i <= |text|
  {
    token <= text[i..]
  }

  predicate Leaks(text: string, secrets: set<string>) {
    exists token | token in secrets :: Contains(text, token)
  }

  /** The scan does not stop publication over this artifact. */
  predicate Passes(c: Content, secrets: set<string>) {
    match c
    case Text(text) => !Leaks(text, secrets)
    case Unreadable => true
    case Undecodable => false
  }

  /** Everything staged made public, the rest as it was. */
  ghost function Promoted(m: Manifest): Manifest {
    map a | a in m :: if IsStaged(m, a) then Meta(Public, false) else m[a]
  }

  function Staged(m: Manifest, a: Artifact): Manifest { m[a := Meta(Private, true)] }

  datatype Scan = Report(scanned: seq<Artifact>, leaking: seq<Artifact>) | DecodeError

  datatype Outcome = Published | Refused | Crashed

  /** The manifests under an output directory. */
  class ArtifactTree {
    /** Every path an artifact can have, in the order of the sorted directory walk. */
    const paths: seq<Artifact>
    var manifest: Manifest

    ghost predicate Valid()
      reads this
    {
      NoDup(paths) && forall a :: a in manifest ==> a in paths
    }

    constructor (paths: seq<Artifact>)
      requires NoDup(paths)
      ensures Valid() && this.paths == paths && manifest == map[]
    {
      this.paths, manifest := paths, map[];
    }

    /** set_artifact_meta */
    method SetMeta(a: Artifact, meta: Meta)
      requires Valid() && a in paths
      modifies this
      ensures Valid() && manifest == old(manifest)[a := meta]
    {
      manifest := manifest[a := meta];
    }

    /** staged_public_artifacts */
    method StagedPublicArtifacts() returns (found: seq<Artifact>)
      requires Valid()
      ensures NoDup(found) && forall a :: a in found <==> IsStaged(manifest, a)
    {
      found := [];
      for i := 0 to |paths|
        invariant NoDup(found) && forall a :: a in found <==> a in paths[..i] && IsStaged(manifest, a)
      {
        assert paths[..i + 1] == paths[..i] + [paths[i]];
        assert paths[i] !in paths[..i];
        if IsStaged(manifest, paths[i]) {
          found := found + [paths[i]];
        }
      }
      assert paths[..|paths|] == paths;
    }

    /** promote_public_artifacts */
    method PromotePublicArtifacts() returns (promoted: seq<Artifact>)
      requires Valid()
      modifies this
      ensures Valid() && manifest == Promoted(old(manifest))
      ensures forall a :: a in promoted <==> IsStaged(old(manifest), a)
    {
      ghost var before := manifest;
      var found := StagedPublicArtifacts();
      for i := 0 to |found|
        invariant Valid() && manifest.Keys == before.Keys
        invariant forall a :: a in before ==> manifest[a] == if a in found[..i] then Meta(Public, false) else before[a]
      {
        assert found[..i + 1] == found[..i] + [found[i]];
        assert found[i] in found;
        SetMeta(found[i], Meta(Public, false));
      }
      assert found[..|found|] == found;
      promoted := found;
    }

    /** scan_public_artifacts over the staged set: unreadable files are skipped, and a file that is not
        UTF-8 ends the scan with an exception. */
    method ScanStaged(content: Artifact -> Content, secrets: set<string>) returns (r: Scan)
      requires Valid()
      ensures r.DecodeError? <==> exists a :: IsStaged(manifest, a) && content(a).Undecodable?
      ensures r.Report? ==> forall a :: a in r.scanned <==> IsStaged(manifest, a) && content(a).Text?
      ensures r.Report? ==> forall a :: a in r.leaking <==> a in r.scanned && Leaks(content(a).text, secrets)
    {
      var found := StagedPublicArtifacts();
      var scanned, leaking := [], [];
      for i := 0 to |found|
        invariant forall a :: a in found[..i] ==> !content(a).Undecodable?
        invariant forall a :: a in scanned <==> a in found[..i] && content(a).Text?
        invariant forall a :: a in leaking <==> a in scanned && Leaks(content(a).text, secrets)
      {
        assert found[..i + 1] == found[..i] + [found[i]];
        match content(found[i])
        case Text(text) =>
          scanned := scanned + [found[i]];
          if Leaks(text, secrets) {
            leaking := leaking + [found[i]];
          }
        case Unreadable =>
        case Undecodable =>
          assert IsStaged(manifest, found[i]) by { assert found[i] in found; }
          return DecodeError;
      }
      assert found[..|found|] == found;
      return Report(scanned, leaking);
    }

    /** The end of an official evaluation: stage the result and the feedback, scan, file the report, promote. */
    method Publish(content: Artifact -> Content, secrets: set<string>, result: Artifact, feedback: Artifact,
                   report: Artifact)
      returns (outcome: Outcome)
      requires Valid() && result in paths && feedback in paths && report in paths
      modifies this
      ensures Valid()
      ensures outcome.Published? <==> Clean(Staged(Staged(old(manifest), result), feedback), content, secrets)
      ensures outcome.Published? ==>
                manifest == Promoted(Staged(Staged(old(manifest), result), feedback)[report := Meta(Private, false)])
      ensures outcome.Crashed? ==> manifest == Staged(Staged(old(manifest), result), feedback)
      ensures outcome.Refused? ==>
                manifest == Staged(Staged(old(manifest), result), feedback)[report := Meta(Private, false)]
      ensures !outcome.Published? ==> forall a :: IsPublic(manifest, a) ==> IsPublic(old(manifest), a)
    {
      SetMeta(result, Meta(Private, true));
      SetMeta(feedback, Meta(Private, true));
      var scan := ScanStaged(content, secrets);
      if scan.DecodeError? {
        return Crashed;
      }
      ghost var staged := manifest;
      SetMeta(report, Meta(Private, false));
      if scan.leaking != [] {
        assert scan.leaking[0] in scan.leaking;
        return Refused;
      }
      forall a | IsStaged(staged, a) ensures Passes(content(a), secrets) {
        assert a !in scan.leaking;
      }
      var _ := PromotePublicArtifacts();
      return Published;
    }
  }

  /** Every staged artifact passes the scan. */
  ghost predicate Clean(m: Manifest, content: Artifact -> Content, secrets: set<string>) {
    forall a :: IsStaged(m, a) ==> Passes(content(a), secrets)
  }

  /** Among what promotion makes public after a clean scan, exactly the unreadable artifacts went unscanned;
      no other newly public text holds a secret. */
  lemma PublishedIsScanned(m: Manifest, content: Artifact -> Content, secrets: set<string>, report: Artifact)
    requires Clean(m, content, secrets)
    ensures var after := Promoted(m[report := Meta(Private, false)]);
            && (forall a :: IsPublic(after, a) && !IsPublic(m, a) <==> IsStaged(m, a) && a != report)
            && ((forall a :: IsPublic(after, a) && !IsPublic(m, a) ==> content(a).Text? && !Leaks(content(a).text, secrets))
                <==> forall a :: IsStaged(m, a) && a != report ==> content(a) != Unreadable)
  {
    var after := Promoted(m[report := Meta(Private, false)]);
    forall a ensures IsPublic(after, a) && !IsPublic(m, a) <==> IsStaged(m, a) && a != report {
    }
    forall a | IsStaged(m, a) ensures Passes(content(a), secrets) {
    }
  }

  /** A staged artifact that cannot be read is promoted without a scan. */
  lemma UnreadableIsPublished(a: Artifact, report: Artifact, content: Artifact -> Content, secrets: set<string>)
    requires a != report && content(a) == Unreadable
    ensures var m := map[a := Meta(Private, true)];
            Clean(m, content, secrets) && IsPublic(Promoted(m[report := Meta(Private, false)]), a) && !IsPublic(m, a)
  {
  }

  /** A text contains a token when it is some text, the token, and more text. */
  lemma ContainsMeans(text: string, token: string)
    ensures Contains(text, token) <==> exists before: string, behind: string :: text == before + token + behind
  {
    if Contains(text, token) {
      var i :| 0 <= i <= |text| && StandsAt(text, token, i);
      var before, behind := text[..i], text[i + |token|..];
      assert text == before + token + behind;
    }
    if before: string, behind: string :| text == before + token + behind {
      assert text[|before|..] == token + behind;
      assert StandsAt(text, token, |before|);
    }
  }
}
