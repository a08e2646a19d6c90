/**
 * The entity descriptors of worker/entities.ts: each entity type's namespace,
 * index name, default record, seed dataset and key derivation. The mock data
 * the seeds come from (shared/mock-data) is a parameter.
 */
module Entities {
  import opened SharedTypes
  import opened EntityStore

  /** The base class's key derivation, used by schemes and applications: the record's id. */
  function SchemeKey(s: Scheme): string { s.id }
  function ApplicationKey(a: Application): string { a.id }

  /** `UserEntity.keyOf`: users are stored under their email address. */
  function UserKey(u: AuthUser): (k: string)
    ensures k == u.email
  {
    u.email
  }

  const SchemeInitial: Scheme := Scheme("", "", "", Loan, None, "", "", Leaf)
  const ApplicationInitial: Application := Application("", "", "", 0, InReview, Loan, Some([]))
  const UserInitial: AuthUser := AuthUser("", "", Some(""))

  /** `SchemeEntity`, seeded with the mock schemes. */
  function SchemeEntity(mockSchemes: seq<Scheme>): (d: Descriptor<Scheme>)
    ensures d.entityName == "scheme" && d.indexName == "schemes" && d.initialState == SchemeInitial
    ensures d.seedData == Some(mockSchemes)
    ensures forall s :: d.keyOf(s) == s.id
  {
    Descriptor("scheme", "schemes", SchemeInitial, Some(mockSchemes), SchemeKey)
  }

  /** `ApplicationEntity`, seeded with the mock applications and their events. */
  function ApplicationEntity(mockApplications: seq<Application>,
                             mockEvents: map<string, seq<ApplicationEvent>>): (d: Descriptor<Application>)
    ensures d.entityName == "application" && d.indexName == "applications" && d.initialState == ApplicationInitial
    ensures d.seedData.Some? && |d.seedData.value| == |mockApplications|
    ensures forall i :: 0 <= i < |mockApplications| ==> d.seedData.value[i].id == mockApplications[i].id
    ensures d.seedData == Some(SeedApplications(mockApplications, mockEvents))
    ensures forall a :: d.keyOf(a) == a.id
  {
    Descriptor("application", "applications", ApplicationInitial,
               Some(SeedApplications(mockApplications, mockEvents)), ApplicationKey)
  }

  /** `UserEntity`: keyed by email, with no seed dataset. */
  const UserEntity: Descriptor<AuthUser> := Descriptor("user", "users", UserInitial, None, UserKey)

  /** `MOCK_APPLICATION_EVENTS[id] || []`: an application's mock events, or none. */
  function EventsFor(mockEvents: map<string, seq<ApplicationEvent>>, id: string): (events: seq<ApplicationEvent>)
    ensures id in mockEvents ==> events == mockEvents[id]
    ensures id !in mockEvents ==> events == []
  {
    if id in mockEvents then mockEvents[id] else []
  }

  /** `SEED_APPLICATIONS`: each mock application with its events attached. */
  function SeedApplications(mockApplications: seq<Application>,
                            mockEvents: map<string, seq<ApplicationEvent>>): (seed: seq<Application>)
    ensures |seed| == |mockApplications|
    ensures forall i :: 0 <= i < |seed| ==> seed[i].id == mockApplications[i].id
    ensures forall i :: 0 <= i < |seed| ==> seed[i].events == Some(EventsFor(mockEvents, seed[i].id))
    ensures forall i :: 0 <= i < |seed| ==> seed[i].(events := mockApplications[i].events) == mockApplications[i]
  {
    if mockApplications == [] then []
    else
      var app := mockApplications[0];
      [app.(events := Some(EventsFor(mockEvents, app.id)))]
        + SeedApplications(mockApplications[1..], mockEvents)
  }

  /** The three entity types live in pairwise distinct namespaces and indexes. */
  lemma NamespacesDistinct(mockSchemes: seq<Scheme>, mockApplications: seq<Application>,
                           mockEvents: map<string, seq<ApplicationEvent>>)
    ensures var s, a, u := SchemeEntity(mockSchemes), ApplicationEntity(mockApplications, mockEvents), UserEntity;
      s.entityName != a.entityName && s.entityName != u.entityName && a.entityName != u.entityName
      && s.indexName != a.indexName && s.indexName != u.indexName && a.indexName != u.indexName
  {
  }

  /** The default records: empty strings, a Loan with the Leaf icon, an In Review Loan of amount 0. */
  lemma DefaultStates()
    ensures SchemeInitial.id == SchemeInitial.title == SchemeInitial.description == ""
    ensures SchemeInitial.maxAmount == SchemeInitial.eligibility == ""
    ensures SchemeInitial.kind == Loan && SchemeInitial.icon == Leaf
    ensures ApplicationInitial.amount == 0 && ApplicationInitial.status == InReview
    ensures ApplicationInitial.kind == Loan && ApplicationInitial.events == Some([])
    ensures UserInitial.id == UserInitial.email == "" && UserInitial.hashedPassword == Some("")
  {
  }

  /** Only schemes and applications carry a seed dataset; users have none. */
  lemma OnlySchemesAndApplicationsSeeded(mockSchemes: seq<Scheme>, mockApplications: seq<Application>,
                                         mockEvents: map<string, seq<ApplicationEvent>>)
    ensures SchemeEntity(mockSchemes).seedData == Some(mockSchemes)
    ensures ApplicationEntity(mockApplications, mockEvents).seedData.Some?
    ensures UserEntity.seedData == None && SeedOf(UserEntity) == []
  {
  }

  /** Users with distinct emails get distinct keys, and the key is the email the routes probe. */
  lemma UserKeysInjective(u: AuthUser, v: AuthUser)
    ensures UserEntity.keyOf(u) == u.email
    ensures UserEntity.keyOf(u) == UserEntity.keyOf(v) <==> u.email == v.email
  {
  }

  /**
   * Seeding applications keeps the mock ids in order; when they are distinct,
   * listing the freshly seeded store gives back exactly `SEED_APPLICATIONS`.
   */
  lemma SeededApplicationsListed(mockApplications: seq<Application>,
                                 mockEvents: map<string, seq<ApplicationEvent>>)
    requires NoDuplicates(KeysOf(ApplicationKey, mockApplications))
    ensures var seed := SeedApplications(mockApplications, mockEvents);
      KeysOf(ApplicationKey, seed) == KeysOf(ApplicationKey, mockApplications)
      && ItemsAt(SeedRecords(ApplicationKey, seed), SeedIndex(ApplicationKey, seed)) == seed
  {
    var seed := SeedApplications(mockApplications, mockEvents);
    assert KeysOf(ApplicationKey, seed) == KeysOf(ApplicationKey, mockApplications);
    SeededListIsSeed(ApplicationKey, seed);
  }
}
