/** One walk over an archive, two callers: `walk`, `plan_reader` and `extract` in archive.rs. */
module Walk {
  import opened Paths
  import opened Resolution
  import opened Records
  import Disk
  import E = Extraction

  datatype RawKind = Regular | Directory | Symlink | HardLink | Meta | Other

  /** A header and its bytes as the tar reader hands them over. */
  datatype Raw = Raw(kind: RawKind, path: string, link: Option<string>, xattr: bool, mode: nat, chunks: seq<Disk.Content>)

  datatype Why =
    | AbsolutePath | NewlineInPath | EmptyPath | CarriesXattr | NoTarget | EmptyTarget | NotAMember
    | ClimbsOut | TooManyLinks | TradesPlaces | CutOff | Io

  datatype Result<+T> = Ok(value: T) | Err(why: Why)

  function TrimSlashes(s: string): string {
    if s != "" && s[|s| - 1] == '/' then TrimSlashes(s[..|s| - 1]) else s
  }

  /** A member's own path: `None` is the root of the tree itself. */
  function Tidy(p: string): Result<Option<string>> {
    var s := TrimSlashes(p);
    if Absolute(s) then Err(AbsolutePath)
    else if '\n' in s then Err(NewlineInPath)
    else if s == "" || s == "." then Ok(None)
    else Ok(Some(s))
  }

  function LinksOn(d: Disk.Disk): map<Path, string> {
    map p | p in d.nodes && d.nodes[p].Link? :: d.nodes[p].target
  }

  function ResolveOr(links: Links, path: string, follow: bool): Result<Path> {
    match Resolve(links, path, follow)
    case Landed(p, _) => Ok(p)
    case Climbs => Err(ClimbsOut)
    case TooMany => Err(TooManyLinks)
  }

  /** What a header makes, short of where it lands. `None` is a header that is no member. */
  function Making(links: Links, raw: Raw): Result<Option<E.What>> {
    match raw.kind
    case Regular => Ok(Some(E.File(raw.chunks)))
    case Directory => Ok(Some(E.What.Dir))
    case Symlink => if raw.link == None then Err(NoTarget) else Ok(Some(E.What.Link(raw.link.value)))
    case HardLink => (
      if raw.link == None then Err(NoTarget)
      else
        match Tidy(raw.link.value)
        case Err(why) => Err(why)
        case Ok(None) => Err(EmptyTarget)
        case Ok(Some(t)) =>
          match ResolveOr(links, t, false)
          case Err(why) => Err(why)
          case Ok(p) => Ok(Some(E.What.Hard(p))))
    case Meta => Ok(None)
    case Other => Err(NotAMember)
  }

  /** A directory would have to take the place of something else, or the other way round. */
  predicate Trades(d: Disk.Disk, p: Path, what: E.What) {
    (p == [] || p in d.nodes) && d.IsDir(p) != what.Dir?
  }

  /** One header, against the links seen so far and the disk as it is. */
  function Take(d: Disk.Disk, made: map<Path, string>, raw: Raw): Result<Option<E.Member>> {
    var links := Links(made, LinksOn(d));
    match Tidy(raw.path)
    case Err(why) => Err(why)
    case Ok(None) => if raw.kind == Directory then Ok(None) else Err(EmptyPath)
    case Ok(Some(path)) =>
      if raw.xattr then Err(CarriesXattr)
      else
        match Making(links, raw)
        case Err(why) => Err(why)
        case Ok(None) => Ok(None)
        case Ok(Some(what)) =>
          // a directory lands through a symlink, anything else replaces one
          match ResolveOr(links, path, what.Dir?)
          case Err(why) => Err(why)
          case Ok(landed) =>
            if Trades(d, landed, what) then Err(TradesPlaces)
            else Ok(Some(E.Member(what, raw.mode, landed)))
  }

  function Noting(made: map<Path, string>, m: E.Member): map<Path, string> {
    if m.what.Link? then made[m.path := m.what.target] else made
  }

  /** The walk that plans: the disk stays as it is. */
  function Plan(d: Disk.Disk, made: map<Path, string>, raws: seq<Raw>, ended: bool): Result<seq<E.Member>>
    decreases |raws|
  {
    if raws == [] then if ended then Ok([]) else Err(CutOff)
    else
      match Take(d, made, raws[0])
      case Err(why) => Err(why)
      case Ok(None) => Plan(d, made, raws[1..], ended)
      case Ok(Some(m)) =>
        match Plan(d, Noting(made, m), raws[1..], ended)
        case Err(why) => Err(why)
        case Ok(ms) => Ok([m] + ms)
  }

  /** What an extraction took, the disk it left and the manifest it recorded. */
  datatype Unpacked = Unpacked(disk: Disk.Disk, members: seq<E.Member>, manifest: seq<Entry<Disk.Content, Path>>)

  /** The walk that extracts: each member is on disk before the next one is resolved. */
  function Unpack(d: Disk.Disk, made: map<Path, string>, raws: seq<Raw>, ended: bool, skip: set<Path>, keep: set<Path>): Result<Unpacked>
    decreases |raws|
  {
    if raws == [] then if ended then Ok(Unpacked(d, [], [])) else Err(CutOff)
    else
      match Take(d, made, raws[0])
      case Err(why) => Err(why)
      case Ok(None) => Unpack(d, made, raws[1..], ended, skip, keep)
      case Ok(Some(m)) =>
        if m.path == [] then Err(Io)
        else
          match Disk.Run(d, E.Steps(d, m, skip))
          case None => Err(Io)
          case Some(e) =>
            match Unpack(e, Noting(made, m), raws[1..], ended, skip, keep)
            case Err(why) => Err(why)
            case Ok(u) => Ok(Unpacked(u.disk, [m] + u.members, E.Entries(d, m, keep) + u.manifest))
  }

  method PlanArchive(d: Disk.Disk, raws: seq<Raw>, ended: bool) returns (r: Result<seq<E.Member>>)
    ensures r == Plan(d, map[], raws, ended)
  {
    var out: seq<E.Member> := [];
    var made: map<Path, string> := map[];
    assert raws[0..] == raws;
    assert forall ms: seq<E.Member> :: [] + ms == ms;
    for i := 0 to |raws|
      invariant var (all, left) := (Plan(d, map[], raws, ended), Plan(d, made, raws[i..], ended));
        all == if left.Ok? then Ok(out + left.value) else left
    {
      assert raws[i..][0] == raws[i] && raws[i..][1..] == raws[i + 1..];
      var taken := Take(d, made, raws[i]);
      match taken {
        case Err(why) =>
          return Err(why);
        case Ok(None) =>
        case Ok(Some(m)) =>
          ghost var left := Plan(d, Noting(made, m), raws[i + 1..], ended);
          assert left.Ok? ==> out + ([m] + left.value) == out + [m] + left.value;
          made := Noting(made, m);
          out := out + [m];
      }
    }
    if !ended {
      return Err(CutOff);
    }
    assert out + [] == out;
    return Ok(out);
  }
}
