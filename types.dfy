/**
  The record shapes shared by the calculator, its analysis and its exporters
  (types.ts at the repository root). Lengths and coordinates are millimetres,
  forces kilonewtons, areas cm², second moments cm⁴, masses kg/m.
*/
module Types {

  /** The eight snow regions of the Russian code of practice SP 20.13330.2016. */
  datatype SnowRegion = I | II | III | IV | V | VI | VII | VIII

  function RegionName(r: SnowRegion): (s: string)
    ensures 1 <= |s| <= 4
  {
    match r
    case I => "I"
    case II => "II"
    case III => "III"
    case IV => "IV"
    case V => "V"
    case VI => "VI"
    case VII => "VII"
    case VIII => "VIII"
  }

  datatype TrussType = W | N

  /** What the user enters: span, rise, roof angle, lattice type, snow region, truss spacing. */
  datatype CanopyConfig = CanopyConfig(
    width: real,
    height: real,
    roofAngle: real,
    trussType: TrussType,
    region: SnowRegion,
    spacing: real)

  datatype Node = Node(x: real, y: real)

  /** A member as the geometry creates it: a label, its two node indices and its length. */
  datatype Member = Member(id: string, startNode: nat, endNode: nat, length: real)

  /** A member once an analysis has given it an axial force (negative is compression). */
  datatype LoadedMember = LoadedMember(member: Member, force: real)

  datatype SteelProfile = SteelProfile(
    name: string,
    height: real,
    width: real,
    thickness: real,
    area: real,
    ix: real,
    iy: real,
    massPerMeter: real)

  /** A member with its force and the catalogue profile chosen for it. */
  datatype SizedMember = SizedMember(member: Member, force: real, profile: SteelProfile)

  /** One line of the bill of materials. */
  datatype SpecificationItem = SpecificationItem(
    name: string,
    profileName: string,
    length: real,
    count: nat,
    totalLength: real)

  /** Geometry before analysis. */
  datatype TrussGeometry = TrussGeometry(nodes: seq<Node>, members: seq<Member>)

  datatype CalculatedTruss = CalculatedTruss(nodes: seq<Node>, members: seq<SizedMember>)

  datatype DesignLoads = DesignLoads(snowLoad: real, windLoad: real)

  datatype CalculationResult = CalculationResult(
    config: CanopyConfig,
    truss: CalculatedTruss,
    specification: seq<SpecificationItem>,
    loads: DesignLoads)

  /** Every member names two existing nodes. */
  predicate ValidIndices(nodes: seq<Node>, members: seq<Member>)
  {
    forall k :: 0 <= k < |members| ==> members[k].startNode < |nodes| && members[k].endNode < |nodes|
  }
}
