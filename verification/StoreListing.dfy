/**
 The listing that the store's operations go by is the one that is read from the drawn tree.
 */
module StoreListing {
  import opened Options
  import opened Ordering
  import opened PathNames
  import opened TreeListing
  import DrawnTree
  import StoreRuns

  lemma SightOfName(p: Path)
    requires EntryFile(p) && PathNames.Components(p)
    ensures StoreRuns.InSight(EntryName(p)) <==> DrawnTree.InSight(p)
  {
    var e := EntryPath(p);
    var stem := Stem(p[|p| - 1]);
    assert stem[0] == p[|p| - 1][0];
    assert forall i :: 0 <= i < |stem| ==> stem[i] == p[|p| - 1][i];
    assert forall i :: 0 <= i < |p| - 1 ==> e[i] == p[i];
    assert forall i :: 0 <= i < |p| ==> (DrawnTree.Hidden(e[i]) <==> DrawnTree.Hidden(p[i]));
    PiecesOfJoined(e);
    hide Pieces, Joined;
  }

  lemma SeenIsVisible(nodes: seq<DrawnTree.Node>)
    requires DrawnTree.Real(nodes)
    ensures var disk := DrawnTree.DiskOf(nodes);
      (set name | name in WalkedNames(disk) && StoreRuns.InSight(name)) == DrawnTree.VisibleNames(disk)
  {
    var disk := DrawnTree.DiskOf(nodes);
    hide StoreRuns.InSight, EntryName, Walked, DrawnTree.InSight;
    forall p | p in disk.files && EntryFile(p) ensures StoreRuns.InSight(EntryName(p)) <==> DrawnTree.InSight(p) {
      DrawnTree.FilesAreReal(nodes, [], p);
      SightOfName(p);
    }
    forall p | p in disk.files && EntryFile(p) && DrawnTree.InSight(p) ensures Walked(p) { InSightIsWalked(p); }
    forall p ensures Walked(p) ==> EntryFile(p) { WalkedIsEntry(p); }
  }

  lemma InSightIsWalked(p: Path)
    requires EntryFile(p) && DrawnTree.InSight(p)
    ensures Walked(p)
  {
    assert !DrawnTree.Hidden(p[0]);
  }

  lemma WalkedIsEntry(p: Path)
    ensures Walked(p) ==> EntryFile(p)
  {
  }

  /**
   For every store with tidy names: what the reader makes of its drawn tree is the sorted
   listing, of the entries on disk, that the runs of the store go by.
   */
  lemma StoreIsListed(nodes: seq<DrawnTree.Node>)
    requires DrawnTree.Tidy(nodes) && DrawnTree.Real(nodes)
    ensures var disk := DrawnTree.DiskOf(nodes);
      TreeListing.Listed(disk, DrawnTree.ListingText(nodes)) == Listing(Bytes, StoreRuns.Listed(WalkedNames(disk)))
  {
    DrawnTree.ListingIsExact(nodes);
    SeenIsVisible(nodes);
    hide DrawnTree.Tidy, DrawnTree.Real, DrawnTree.DiskOf, DrawnTree.ListingText, WalkedNames, DrawnTree.VisibleNames, StoreRuns.InSight, TreeListing.Listed;
  }
}
