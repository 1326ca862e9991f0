/** The records the planning engine works on: clients, job sites ("chantiers"), workers
    ("collaborateurs") and interventions (one worker on one job site for one time window).
    Optional columns are `Option`s; the joined records an intervention fetch carries are kept. */
module Records {
  import opened Wrappers
  import LocalTime

  datatype Client = Client(
    id: string,
    entrepriseId: string,
    nom: string,
    prenom: string,
    adresse: string,
    codePostal: string,
    ville: string,
    createdAt: Option<string>)

  /** A job site; `tempsVendu` is the sold (quoted) budget in hours. */
  datatype Chantier = Chantier(
    id: string,
    entrepriseId: string,
    clientId: string,
    description: string,
    adresse: string,
    codePostal: string,
    ville: string,
    dateDebut: string,
    tempsVendu: Option<real>,
    createdAt: Option<string>,
    client: Option<Client>)

  datatype Collaborateur = Collaborateur(
    id: string,
    entrepriseId: string,
    nom: string,
    prenom: string,
    poste: string,
    photoUrl: Option<string>,
    createdAt: Option<string>)

  datatype Period = AM | PM

  /** An intervention. `entrepriseId` is optional here because the record the planning screen
      builds before the store confirms it has none. */
  datatype Intervention = Intervention(
    id: string,
    entrepriseId: Option<string>,
    chantierId: string,
    collaborateurId: string,
    start: LocalTime.Timestamp,
    end: LocalTime.Timestamp,
    commentaire: Option<string>,
    creneau: Option<Period>,
    createdAt: Option<string>,
    chantier: Option<Chantier>,
    collaborateur: Option<Collaborateur>)

  /** The ids of a list of interventions, in list order. */
  function Ids(list: seq<Intervention>): (r: seq<string>)
    ensures |r| == |list|
    ensures forall k :: 0 <= k < |list| ==> r[k] == list[k].id
  {
    seq(|list|, k requires 0 <= k < |list| => list[k].id)
  }

  /** No two interventions of the list share an id. */
  predicate UniqueIds(list: seq<Intervention>) {
    forall j, k :: 0 <= j < k < |list| ==> list[j].id != list[k].id
  }
}
