/** Cloud resources and the metadata the graph reads off them. */
module Resources {
  import opened Wrappers
  import opened Text

  datatype AccessKind = READ | MANAGE | READ_DATA | EXECUTE | EDIT_POLICY | GRANT_ACCESS | ACT_AS

  datatype Pair = Pair(kind: ResourceType, access: AccessKind)

  /** A role entry's `access`: not recorded, a definition never read, or the (type, kind) pairs it states. */
  datatype RoleAccess = Absent | NotRead | Stated(pairs: seq<Pair>)

  /** An entry of a metadata list: a mapping with its values as text, empty where falsy; or anything else. */
  datatype Item = Mapping(fields: map<string, string>, access: RoleAccess) | Bare(text: string)

  /** A metadata value, as far as the graph tells values apart. `Nothing` is a key recorded as None. */
  datatype Meta = Nothing | Flag(on: bool) | Text(text: string) | Entries(items: seq<Item>)

  datatype ResourceType = SUBSCRIPTION | RESOURCE_GROUP | GROUP | OTHER(name: string)

  datatype Resource = Resource(id: string, kind: ResourceType, name: string, metadata: Metadata)

  datatype Relationship =
    | CONTAINS | HAS_IDENTITY | GRANTS_ROLE | CAN_GRANT_ROLES | MEMBER_OF | CAN_ACT_AS | CAN_TAKE_OVER
    | ELIGIBLE_FOR | ANOTHER(name: string)

  datatype Edge = Edge(source: string, relationship: Relationship, target: string)

  /** The metadata keys the graph reads, and any other. */
  datatype MetaKey =
    | IDENTITY_ID | STUB | MEMBERS | ROLES | UNNAMED | POWERS | ELIGIBLE_POWERS | ELIGIBLE_ROLES
    | ACTS_AS | CONTROLLERS | CAN_SIGN_IN | GOVERNED_BY_OWN_POLICY | ANOTHER_KEY(name: string)

  type Metadata = map<MetaKey, Meta>

  const CONTROL_ALL_SCOPES := "control_all_scopes"
  const ACT_AS_ANY_APPLICATION := "act_as_any_application"

  function MetaAt(metadata: Metadata, key: MetaKey): Meta {
    if key in metadata then metadata[key] else Nothing
  }

  predicate Truthy(m: Meta) {
    match m
    case Nothing => false
    case Flag(on) => on
    case Text(t) => t != ""
    case Entries(items) => items != []
  }

  lemma TruthyMeans(m: Meta)
    ensures Truthy(m) <==> m !in {Nothing, Flag(false), Text(""), Entries([])}
  {
  }

  function ItemsAt(metadata: Metadata, key: MetaKey): seq<Item> {
    var m := MetaAt(metadata, key);
    if m.Entries? then m.items else []
  }

  function Field(fields: map<string, string>, key: string): string {
    if key in fields then fields[key] else ""
  }

  predicate IsStub(r: Resource) {
    Truthy(MetaAt(r.metadata, STUB))
  }

  /** The directory object a resource is, ignoring case; none unless its id is a string that is not empty. */
  function IdentityOf(r: Resource): Option<string> {
    var m := MetaAt(r.metadata, IDENTITY_ID);
    if m.Text? && m.text != "" then Some(Lower(m.text)) else None
  }

  /** Two records name one directory object, whatever the case of its id. */
  ghost predicate NameOneIdentity(a: Resource, b: Resource) {
    && IDENTITY_ID in a.metadata && IDENTITY_ID in b.metadata
    && a.metadata[IDENTITY_ID].Text? && b.metadata[IDENTITY_ID].Text? && a.metadata[IDENTITY_ID].text != ""
    && Lower(a.metadata[IDENTITY_ID].text) == Lower(b.metadata[IDENTITY_ID].text)
  }

  lemma OneIdentity(a: Resource, b: Resource)
    ensures NameOneIdentity(a, b) <==> IdentityOf(a).Some? && IdentityOf(a) == IdentityOf(b)
  {
    if NameOneIdentity(a, b) {
      assert |Lower(a.metadata[IDENTITY_ID].text)| == |a.metadata[IDENTITY_ID].text|;
      assert |Lower(b.metadata[IDENTITY_ID].text)| == |b.metadata[IDENTITY_ID].text|;
    }
  }

  /** `members_of`, by the members' ids. */
  predicate HasMember(r: Resource, id: string) {
    exists i :: i in ItemsAt(r.metadata, MEMBERS) && i.Mapping? && Field(i.fields, "id") == id && id != ""
  }

  /** `powers_of`. */
  predicate HoldsPower(r: Resource, key: MetaKey, power: string) {
    exists i :: i in ItemsAt(r.metadata, key) && i.Mapping? && Field(i.fields, "power") == power && power != ""
  }

  /** A list of the record has an entry with this text in this field. */
  ghost predicate Records(r: Resource, key: MetaKey, field: string, value: string) {
    && key in r.metadata && r.metadata[key].Entries? && value != ""
    && exists i :: i in r.metadata[key].items && i.Mapping? && field in i.fields && i.fields[field] == value
  }

  lemma MembersAreRecorded(r: Resource, id: string)
    ensures HasMember(r, id) <==> Records(r, MEMBERS, "id", id)
  {
    if i :| i in ItemsAt(r.metadata, MEMBERS) && i.Mapping? && Field(i.fields, "id") == id && id != "" {
      assert "id" in i.fields;
    }
    if Records(r, MEMBERS, "id", id) {
      var i :| i in r.metadata[MEMBERS].items && i.Mapping? && "id" in i.fields && i.fields["id"] == id;
      assert Field(i.fields, "id") == id;
    }
  }

  lemma PowersAreRecorded(r: Resource, key: MetaKey, power: string)
    ensures HoldsPower(r, key, power) <==> Records(r, key, "power", power)
  {
    if i :| i in ItemsAt(r.metadata, key) && i.Mapping? && Field(i.fields, "power") == power && power != "" {
      assert "power" in i.fields;
    }
    if Records(r, key, "power", power) {
      var i :| i in r.metadata[key].items && i.Mapping? && "power" in i.fields && i.fields["power"] == power;
      assert Field(i.fields, "power") == power;
    }
  }
}
