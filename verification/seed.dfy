/** `POST /init-butterflies`: a check-then-insert guard that seeds an empty
    catalog with a fixed list of 30 species and leaves a non-empty one alone. */
module Seed {
  import opened Wrappers
  import opened JsNumber
  import opened Catalog
  import Quiz

  datatype SeedEntry = SeedEntry(commonName: string, latinName: string, imageUrl: string, difficulty: int)

  /** The 30 species inserted into an empty catalog, in insertion order. */
  const SeedList: seq<SeedEntry> := [
      SeedEntry("Monarch", "Danaus plexippus",
        "https://images.unsplash.com/photo-1560263816-d704d83cce0f?crop=entropy&cs=srgb&fm=jpg&ixid=M3w3NDk1Nzd8MHwxfHNlYXJjaHwxfHxidXR0ZXJmbHl8ZW58MHx8fHwxNzYzMDMzNzUzfDA&ixlib=rb-4.1.0&q=85", 1),
      SeedEntry("Blue Morpho", "Morpho menelaus",
        "https://images.unsplash.com/photo-1599631438215-75bc2640feb8?crop=entropy&cs=srgb&fm=jpg&ixid=M3w3NDk1Nzd8MHwxfHNlYXJjaHwyfHxidXR0ZXJmbHl8ZW58MHx8fHwxNzYzMDMzNzUzfDA&ixlib=rb-4.1.0&q=85", 2),
      SeedEntry("Painted Lady", "Vanessa cardui",
        "https://images.unsplash.com/photo-1533048324814-79b0a31982f1?crop=entropy&cs=srgb&fm=jpg&ixid=M3w3NDk1Nzd8MHwxfHNlYXJjaHwzfHxidXR0ZXJmbHl8ZW58MHx8fHwxNzYzMDMzNzUzfDA&ixlib=rb-4.1.0&q=85", 1),
      SeedEntry("Red Admiral", "Vanessa atalanta",
        "https://images.unsplash.com/photo-1564514476902-542f8c30121e?crop=entropy&cs=srgb&fm=jpg&ixid=M3w3NDk1Nzd8MHwxfHNlYXJjaHw0fHxidXR0ZXJmbHl8ZW58MHx8fHwxNzYzMDMzNzUzfDA&ixlib=rb-4.1.0&q=85", 2),
      SeedEntry("Tiger Swallowtail", "Papilio glaucus",
        "https://images.unsplash.com/photo-1702338354821-0ea4fb0221e3?crop=entropy&cs=srgb&fm=jpg&ixid=M3w3NTY2Njd8MHwxfHNlYXJjaHwxfHxzd2FsbG93dGFpbHxlbnwwfHx8fDE3NjMwMzM3ODl8MA&ixlib=rb-4.1.0&q=85", 1),
      SeedEntry("Black Swallowtail", "Papilio polyxenes",
        "https://images.unsplash.com/photo-1657244670691-ec73025cf69e?crop=entropy&cs=srgb&fm=jpg&ixid=M3w3NTY2Njd8MHwxfHNlYXJjaHwyfHxzd2FsbG93dGFpbHxlbnwwfHx8fDE3NjMwMzM3ODl8MA&ixlib=rb-4.1.0&q=85", 2),
      SeedEntry("Spicebush Swallowtail", "Papilio troilus",
        "https://images.unsplash.com/photo-1728946737947-3e1908c3750a?crop=entropy&cs=srgb&fm=jpg&ixid=M3w3NTY2Njd8MHwxfHNlYXJjaHwzfHxzd2FsbG93dGFpbHxlbnwwfHx8fDE3NjMwMzM3ODl8MA&ixlib=rb-4.1.0&q=85", 3),
      SeedEntry("Pipevine Swallowtail", "Battus philenor",
        "https://images.unsplash.com/photo-1628181150173-f5f355d15f28?crop=entropy&cs=srgb&fm=jpg&ixid=M3w3NTY2Njd8MHwxfHNlYXJjaHw0fHxzd2FsbG93dGFpbHxlbnwwfHx8fDE3NjMwMzM3ODl8MA&ixlib=rb-4.1.0&q=85", 3),
      SeedEntry("Zebra Swallowtail", "Eurytides marcellus",
        "https://images.pexels.com/photos/2671074/pexels-photo-2671074.jpeg", 2),
      SeedEntry("Common Buckeye", "Junonia coenia",
        "https://images.unsplash.com/photo-1623615412998-c63b6d5fe9be?crop=entropy&cs=srgb&fm=jpg&ixid=M3w3NDQ2NDJ8MHwxfHNlYXJjaHwxfHxtb25hcmNofGVufDB8fHx8MTc2MzAzMzc4NHww&ixlib=rb-4.1.0&q=85", 2),
      SeedEntry("Pearl Crescent", "Phyciodes tharos",
        "https://images.unsplash.com/photo-1484704193309-27eaa53936a7?crop=entropy&cs=srgb&fm=jpg&ixid=M3w3NDQ2NDJ8MHwxfHNlYXJjaHwyfHxtb25hcmNofGVufDB8fHx8MTc2MzAzMzc4NHww&ixlib=rb-4.1.0&q=85", 3),
      SeedEntry("Question Mark", "Polygonia interrogationis",
        "https://images.unsplash.com/photo-1509715513011-e394f0cb20c4?crop=entropy&cs=srgb&fm=jpg&ixid=M3w3NDQ2NDJ8MHwxfHNlYXJjaHwzfHxtb25hcmNofGVufDB8fHx8MTc2MzAzMzc4NHww&ixlib=rb-4.1.0&q=85", 3),
      SeedEntry("Mourning Cloak", "Nymphalis antiopa",
        "https://images.unsplash.com/photo-1592861377549-3586948b6a74?crop=entropy&cs=srgb&fm=jpg&ixid=M3w3NDQ2NDJ8MHwxfHNlYXJjaHw0fHxtb25hcmNofGVufDB8fHx8MTc2MzAzMzc4NHww&ixlib=rb-4.1.0&q=85", 2),
      SeedEntry("Viceroy", "Limenitis archippus",
        "https://images.pexels.com/photos/28749528/pexels-photo-28749528.jpeg", 2),
      SeedEntry("Gulf Fritillary", "Agraulis vanillae",
        "https://images.unsplash.com/photo-1560263816-d704d83cce0f?crop=entropy&cs=srgb&fm=jpg&ixid=M3w3NDk1Nzd8MHwxfHNlYXJjaHwxfHxidXR0ZXJmbHl8ZW58MHx8fHwxNzYzMDMzNzUzfDA&ixlib=rb-4.1.0&q=85", 2),
      SeedEntry("Great Spangled Fritillary", "Speyeria cybele",
        "https://images.unsplash.com/photo-1533048324814-79b0a31982f1?crop=entropy&cs=srgb&fm=jpg&ixid=M3w3NDk1Nzd8MHwxfHNlYXJjaHwzfHxidXR0ZXJmbHl8ZW58MHx8fHwxNzYzMDMzNzUzfDA&ixlib=rb-4.1.0&q=85", 3),
      SeedEntry("Cabbage White", "Pieris rapae",
        "https://images.unsplash.com/photo-1702338354821-0ea4fb0221e3?crop=entropy&cs=srgb&fm=jpg&ixid=M3w3NTY2Njd8MHwxfHNlYXJjaHwxfHxzd2FsbG93dGFpbHxlbnwwfHx8fDE3NjMwMzM3ODl8MA&ixlib=rb-4.1.0&q=85", 1),
      SeedEntry("Clouded Sulphur", "Colias philodice",
        "https://images.unsplash.com/photo-1728946737947-3e1908c3750a?crop=entropy&cs=srgb&fm=jpg&ixid=M3w3NTY2Njd8MHwxfHNlYXJjaHwzfHxzd2FsbG93dGFpbHxlbnwwfHx8fDE3NjMwMzM3ODl8MA&ixlib=rb-4.1.0&q=85", 2),
      SeedEntry("Orange Sulphur", "Colias eurytheme",
        "https://images.unsplash.com/photo-1628181150173-f5f355d15f28?crop=entropy&cs=srgb&fm=jpg&ixid=M3w3NTY2Njd8MHwxfHNlYXJjaHw0fHxzd2FsbG93dGFpbHxlbnwwfHx8fDE3NjMwMzM3ODl8MA&ixlib=rb-4.1.0&q=85", 2),
      SeedEntry("Cloudless Sulphur", "Phoebis sennae",
        "https://images.unsplash.com/photo-1564514476902-542f8c30121e?crop=entropy&cs=srgb&fm=jpg&ixid=M3w3NDk1Nzd8MHwxfHNlYXJjaHw0fHxidXR0ZXJmbHl8ZW58MHx8fHwxNzYzMDMzNzUzfDA&ixlib=rb-4.1.0&q=85", 2),
      SeedEntry("Eastern Comma", "Polygonia comma",
        "https://images.unsplash.com/photo-1599631438215-75bc2640feb8?crop=entropy&cs=srgb&fm=jpg&ixid=M3w3NDk1Nzd8MHwxfHNlYXJjaHwyfHxidXR0ZXJmbHl8ZW58MHx8fHwxNzYzMDMzNzUzfDA&ixlib=rb-4.1.0&q=85", 3),
      SeedEntry("American Lady", "Vanessa virginiensis",
        "https://images.unsplash.com/photo-1623615412998-c63b6d5fe9be?crop=entropy&cs=srgb&fm=jpg&ixid=M3w3NDQ2NDJ8MHwxfHNlYXJjaHwxfHxtb25hcmNofGVufDB8fHx8MTc2MzAzMzc4NHww&ixlib=rb-4.1.0&q=85", 2),
      SeedEntry("Common Checkered-Skipper", "Pyrgus communis",
        "https://images.unsplash.com/photo-1484704193309-27eaa53936a7?crop=entropy&cs=srgb&fm=jpg&ixid=M3w3NDQ2NDJ8MHwxfHNlYXJjaHwyfHxtb25hcmNofGVufDB8fHx8MTc2MzAzMzc4NHww&ixlib=rb-4.1.0&q=85", 3),
      SeedEntry("Silver-spotted Skipper", "Epargyreus clarus",
        "https://images.unsplash.com/photo-1509715513011-e394f0cb20c4?crop=entropy&cs=srgb&fm=jpg&ixid=M3w3NDQ2NDJ8MHwxfHNlYXJjaHwzfHxtb25hcmNofGVufDB8fHx8MTc2MzAzMzc4NHww&ixlib=rb-4.1.0&q=85", 3),
      SeedEntry("Gray Hairstreak", "Strymon melinus",
        "https://images.unsplash.com/photo-1592861377549-3586948b6a74?crop=entropy&cs=srgb&fm=jpg&ixid=M3w3NDQ2NDJ8MHwxfHNlYXJjaHw0fHxtb25hcmNofGVufDB8fHx8MTc2MzAzMzc4NHww&ixlib=rb-4.1.0&q=85", 3),
      SeedEntry("Spring Azure", "Celastrina ladon",
        "https://images.pexels.com/photos/2671074/pexels-photo-2671074.jpeg", 2),
      SeedEntry("Eastern Tailed-Blue", "Cupido comyntas",
        "https://images.pexels.com/photos/28749528/pexels-photo-28749528.jpeg", 3),
      SeedEntry("Little Yellow", "Pyrisitia lisa",
        "https://images.unsplash.com/photo-1657244670691-ec73025cf69e?crop=entropy&cs=srgb&fm=jpg&ixid=M3w3NTY2Njd8MHwxfHNlYXJjaHwyfHxzd2FsbG93dGFpbHxlbnwwfHx8fDE3NjMwMzM3ODl8MA&ixlib=rb-4.1.0&q=85", 2),
      SeedEntry("Hackberry Emperor", "Asterocampa celtis",
        "https://images.unsplash.com/photo-1560263816-d704d83cce0f?crop=entropy&cs=srgb&fm=jpg&ixid=M3w3NDk1Nzd8MHwxfHNlYXJjaHwxfHxidXR0ZXJmbHl8ZW58MHx8fHwxNzYzMDMzNzUzfDA&ixlib=rb-4.1.0&q=85", 3),
      SeedEntry("Red-spotted Purple", "Limenitis arthemis",
        "https://images.unsplash.com/photo-1599631438215-75bc2640feb8?crop=entropy&cs=srgb&fm=jpg&ixid=M3w3NDk1Nzd8MHwxfHNlYXJjaHwyfHxidXR0ZXJmbHl8ZW58MHx8fHwxNzYzMDMzNzUzfDA&ixlib=rb-4.1.0&q=85", 3)
    ]

  /** What the endpoint reports. */
  datatype InitMessage =
    | AlreadyInitialized(count: nat)
    | Initialized(inserted: nat)

  function MessageText(m: InitMessage): string {
    match m
    case AlreadyInitialized(n) => "Database already initialized with " + Decimal(n) + " butterflies"
    case Initialized(n) => "Successfully initialized " + Decimal(n) + " butterflies"
  }

  /** The document `insert_many` stores for a seed entry under a fresh id. */
  function SeedDoc(e: SeedEntry, oid: ObjectId): Doc {
    Doc(oid, Some(e.commonName), Some(e.latinName), Some(e.imageUrl), Some(e.difficulty))
  }

  function SeedDocs(entries: seq<SeedEntry>, ids: seq<ObjectId>): (r: seq<Doc>)
    requires |ids| == |entries|
    ensures |r| == |entries|
    ensures forall i :: 0 <= i < |r| ==> r[i] == SeedDoc(entries[i], ids[i])
  {
    seq(|entries|, i requires 0 <= i < |entries| => SeedDoc(entries[i], ids[i]))
  }

  /** Every field present and non-empty, difficulty one of the three levels. */
  predicate SeedEntryValid(e: SeedEntry) {
    && e.commonName != [] && e.latinName != [] && e.imageUrl != []
    && 1 <= e.difficulty <= 3
  }

  lemma SeedListValid()
    ensures |SeedList| == 30
    ensures forall i :: 0 <= i < |SeedList| ==> SeedEntryValid(SeedList[i])
  {
  }

  /** `initialize_butterflies`: `freshIds` are the ids the store assigns to the
      inserted documents, one per seed entry. */
  function Initialize(store: seq<Doc>, freshIds: seq<ObjectId>): (r: (seq<Doc>, InitMessage))
    requires |freshIds| == |SeedList|
    ensures |store| > 0 ==> r.0 == store
    ensures |store| == 0 ==> |r.0| == |SeedList|
    ensures r.1 == (if |store| > 0 then AlreadyInitialized(|store|) else Initialized(|SeedList|))
    ensures |store| == 0 ==> forall i :: 0 <= i < |SeedList| ==> r.0[i] == SeedDoc(SeedList[i], freshIds[i])
  {
    var count := Count(store);
    if count > 0 then (store, AlreadyInitialized(count))
    else
      var inserted := SeedDocs(SeedList, freshIds);
      (store + inserted, Initialized(|inserted|))
  }

  /** Initializing twice never changes the catalog the second time; the second
      call reports the size the first one left, 30 when the store was empty. */
  lemma InitializeTwice(store: seq<Doc>, ids1: seq<ObjectId>, ids2: seq<ObjectId>)
    requires |ids1| == |SeedList| && |ids2| == |SeedList|
    ensures var (s1, _) := Initialize(store, ids1);
      && Initialize(s1, ids2) == (s1, AlreadyInitialized(|s1|))
      && |s1| == (if |store| > 0 then |store| else 30)
  {
    SeedListValid();
  }

  ghost predicate DistinctObjectIds(ids: seq<ObjectId>) {
    forall i, j :: 0 <= i < |ids| && 0 <= j < |ids| && i != j ==> ids[i] != ids[j]
  }

  /** Seeding an empty catalog with distinct fresh ids yields 30 well-formed documents with unique ids. */
  lemma SeededCatalog(ids: seq<ObjectId>)
    requires |ids| == |SeedList| && DistinctObjectIds(ids)
    ensures var s := Initialize([], ids).0;
      |s| == 30 && UniqueIds(s) && AllWellFormed(s)
  {
    SeedListValid();
  }

  /** The seeding message carries the count the smoke test looks for. */
  lemma SeedMessage()
    ensures MessageText(Initialized(|SeedList|)) == "Successfully initialized 30 butterflies"
  {
    SeedListValid();
    assert Decimal(30) == "30" by {
      assert Decimal(3) == "3";
    }
  }

  /** Listing freshly inserted valid entries (at most one page of them) returns
      one record per entry, with non-empty fields and pairwise distinct ids. */
  lemma InsertedListing(entries: seq<SeedEntry>, ids: seq<ObjectId>)
    requires |ids| == |entries| <= ListLimit && DistinctObjectIds(ids)
    requires forall i :: 0 <= i < |entries| ==> SeedEntryValid(entries[i])
    ensures var r := GetButterflies(SeedDocs(entries, ids));
      && r.Success? && |r.value| == |entries| && DistinctIds(r.value)
      && forall b :: b in r.value ==> b.commonName != [] && b.latinName != [] && b.imageUrl != []
  {
    var s := SeedDocs(entries, ids);
    assert Find(s, ListLimit) == s;
    assert AllWellFormed(s);
    assert UniqueIds(s);
    var bs := GetButterflies(s).value;
    forall b | b in bs
      ensures b.commonName != [] && b.latinName != [] && b.imageUrl != []
    {
      var k :| 0 <= k < |bs| && bs[k] == b;
      assert FromDoc(s[k]) == Some(b);
    }
  }

  /** The listing scenario: after seeding, `GET /butterflies` returns 30 records,
      each with non-empty names and image URL, with pairwise distinct ids. */
  lemma SeededListing(ids: seq<ObjectId>)
    requires |ids| == |SeedList| && DistinctObjectIds(ids)
    ensures var r := GetButterflies(Initialize([], ids).0);
      && r.Success? && |r.value| == 30 && DistinctIds(r.value)
      && forall b :: b in r.value ==> b.commonName != [] && b.latinName != [] && b.imageUrl != []
  {
    SeedListValid();
    assert Initialize([], ids).0 == SeedDocs(SeedList, ids);
    InsertedListing(SeedList, ids);
  }

  /** After seeding, every request for a question succeeds with five options. */
  lemma SeededQuiz(ids: seq<ObjectId>, p: Quiz.Picks)
    requires |ids| == |SeedList| && DistinctObjectIds(ids)
    ensures var r := Quiz.GetQuizQuestion(Initialize([], ids).0, p);
      r.Success? && |r.value.options| == 5
  {
    SeededCatalog(ids);
    var s := Initialize([], ids).0;
    assert Find(s, ListLimit) == s;
    Quiz.QuestionShape(s, p);
  }
}
