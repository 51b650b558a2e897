/**
  The hub's tables a box manifest is assembled from, as one database value: a map from primary
  key to row for each table, and nested maps for the tables keyed by a pair.
 */
module BoxTables {
  import opened Wrappers

  type Id = string

  datatype Purpose = Persona | Worker | Narrator | Embedding | Stt | Vad | Turn | Tts | Classification

  const PURPOSE_ORDER := [Persona, Worker, Narrator, Embedding, Stt, Vad, Turn, Tts, Classification]

  predicate Generative(p: Purpose) {
    p in {Persona, Worker, Narrator}
  }

  datatype Box = Box(slug: string, name: string, hostId: string, edition: string, version: int)

  datatype Org = Org(name: string, level: string)

  /** The columns a staff row, a narrator and an org override have in common. */
  datatype Profile = Profile(name: string, age: int, voice: string, bigFive: string, brief: string,
                             wordBudget: int, avatar: string)

  datatype Being = Being(locale: string, gender: string, soulCore: string, profile: Profile)

  /** A staff row; the table is keyed by its unique slug. */
  datatype StaffRow = StaffRow(id: Id, being: Being, createdAt: int, updatedAt: int)

  datatype BoxNarrator = BoxNarrator(id: Id, being: Being, createdAt: int, updatedAt: int)

  /** A None column is SQL NULL: inherit the staff row. */
  datatype StaffOverride = StaffOverride(name: Option<string>, age: Option<int>, soul: Option<string>,
                                         voice: Option<string>, bigFive: Option<string>, brief: Option<string>,
                                         wordBudget: Option<int>, avatar: Option<string>)

  datatype ModelFile = ModelFile(file: string, digest: string, size: int)

  /** What the catalogue and the GGUF header taught the hub about a pin, apart from its size. */
  datatype Learned = Learned(pipelineTag: string, libraryName: string, baseModel: string, architecture: string,
                             contextLength: int, downloads: int, gated: bool)

  /** The columns of a pin that reach a manifest. */
  datatype Pin = Pin(source: string, quant: string, file: string, digest: string, licence: string,
                     engine: string, size: int, files: seq<ModelFile>)

  datatype Model = Model(org: string, purpose: Purpose, purposes: seq<Purpose>, pin: Pin, learned: Learned)

  datatype Limits = Limits(maxTokens: int, timeoutSeconds: int)

  /** `issued` is every box id ever minted: ids are never reused. */
  datatype Db = Db(
    issued: set<Id>,
    boxes: map<Id, Box>,
    boxOrgs: map<Id, set<Id>>,
    orgs: map<Id, Org>,
    staff: map<string, StaffRow>,
    orgStaff: map<Id, map<Id, StaffOverride>>,
    narrators: map<Id, BoxNarrator>,
    models: map<Id, Model>,
    assignments: map<Purpose, Id>,
    overrides: map<Id, map<Purpose, Id>>,
    limits: map<Purpose, Limits>,
    boxLimits: map<Id, map<Purpose, Limits>>,
    assignmentsSeeded: bool,
    limitsSeeded: bool)

  predicate ValidDb(db: Db) {
    db.boxes.Keys <= db.issued
  }

  /** The rows of a pair-keyed table under one half of the key. */
  function RowsOf<K(==), V>(table: map<Id, map<K, V>>, id: Id): map<K, V> {
    if id in table then table[id] else map[]
  }

  function PutRow<K(==), V>(table: map<Id, map<K, V>>, id: Id, key: K, row: V): map<Id, map<K, V>> {
    table[id := RowsOf(table, id)[key := row]]
  }

  function DropRow<K(==), V>(table: map<Id, map<K, V>>, id: Id, key: K): map<Id, map<K, V>> {
    table[id := RowsOf(table, id) - {key}]
  }

  function BoundOrgs(db: Db, boxId: Id): set<Id> {
    if boxId in db.boxOrgs then db.boxOrgs[boxId] else {}
  }

  function PinView(models: map<Id, Model>): map<Id, Pin> {
    map id | id in models :: models[id].pin
  }
}
