/** The two models of a directory upload meet: one request after the other on a server that answers, and
    interleaved steps that may fail. */
module UploadAgreement {
  import opened Paths
  import opened RemoteFs
  import opened LocalTree
  import opened StagedUploads
  import DirectoryUpload

  /** Whatever failed and was cleaned up on the way, a lone upload that reports success leaves exactly the
      file system the sequential upload installs. */
  lemma SameOutcome(ups: Uploads, id: nat, source: seq<Entry>, fs0: Fs, events: seq<Event>, s: State, fs: Fs)
    requires ups.Keys == {id} && ups[id].source == LocalDirectory(source)
    requires Compatible(ups) && Runs(ups, Initial(ups, fs0), events, s)
    requires id in s.phases && s.phases[id] == Finished(true)
    requires Vacant(fs0, PartOf(ups, id)) && Subtree(s.fs, BackupOf(ups, id)) == Subtree(fs0, BackupOf(ups, id))
    requires DirectoryUpload.Installed(fs0, fs, ups[id].target, Image("", Dir(source)))
    ensures s.fs == fs
  {
    var target := ups[id].target;
    OnlyTheTargetChanges(ups, id, fs0, events, s);
    InstalledMeans(fs0, fs, target, Image("", Dir(source)));
    hide Compatible, Runs, Initial, Subtree, Within, Image, StagingName, Vacant;
    forall p ensures SameAt(s.fs, fs, p) {
      if Within(target, p) {
        EqualSubtrees(s.fs, fs, target, p);
      } else {
        assert SameAt(fs0, s.fs, p) && SameAt(fs0, fs, p);
      }
    }
    SameEverywhere(s.fs, fs);
  }

  lemma InstalledMeans(fs0: Fs, fs: Fs, target: Path, image: map<string, Node>)
    requires DirectoryUpload.Installed(fs0, fs, target, image)
    ensures Subtree(fs, target) == image && forall p :: !Within(target, p) ==> SameAt(fs0, fs, p)
  {
    hide Subtree, Within;
  }

  lemma SameEverywhere(fs: Fs, fs': Fs)
    requires forall p :: SameAt(fs, fs', p)
    ensures fs == fs'
  {
    forall p ensures p in fs <==> p in fs' {
      assert SameAt(fs, fs', p);
    }
    forall p | p in fs ensures fs[p] == fs'[p] {
      assert SameAt(fs, fs', p);
    }
  }
}
