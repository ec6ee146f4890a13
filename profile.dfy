/** The display profile (which trackers run, how often, and where they draw) and the
    application settings the core reads. */
module Profiles {
  import opened Primitives

  datatype TrackerKind = Ping | Regex | Jellyfin | TrueNas

  datatype Mode = Default | BarX | BarY

  datatype Direction = X | Y

  /** One statistic shown on the grid. `statKey` and `statValue` may be null. */
  datatype ProfileItem = ProfileItem(
    statKey: Option<string>,
    statValue: Option<string>,
    mode: Mode,
    colors: seq<byte>,
    posX: int,
    posY: int,
    size: int,
    scale: real,
    direction: Direction)

  /** A profile item with every property at its declared default. */
  function DefaultItem(): ProfileItem
  {
    ProfileItem(None, None, Default, [], 0, 0, 1, 1.0, X)
  }

  const DefaultUpdateInterval: int := 60000

  /** One registration of the scheduler: a tracker type, its period in milliseconds and the
      items it draws. */
  datatype Tracker = Tracker(kind: TrackerKind, updateInterval: int, items: seq<ProfileItem>)

  /** A registration whose interval is left at its default. */
  function NewTracker(kind: TrackerKind, items: seq<ProfileItem>): Tracker
  {
    Tracker(kind, DefaultUpdateInterval, items)
  }

  /** `device` is the device-name prefix, or null. */
  datatype Profile = Profile(device: Option<string>, items: seq<Tracker>)

  function DefaultProfile(): Profile
  {
    Profile(Some(""), [])
  }

  /** Whether some registration of the profile is of the given type. */
  function UsingTracker(p: Profile, kind: TrackerKind): (used: bool)
    ensures used <==> exists i :: 0 <= i < |p.items| && p.items[i].kind == kind
  {
    AnyOfKind(p.items, kind)
  }

  function AnyOfKind(items: seq<Tracker>, kind: TrackerKind): (found: bool)
    ensures found <==> exists i :: 0 <= i < |items| && items[i].kind == kind
  {
    if items == [] then false
    else if items[0].kind == kind then true
    else
      var rest := AnyOfKind(items[1..], kind);
      assert rest ==> exists i :: 0 <= i < |items| && items[i].kind == kind by {
        if rest {
          var j :| 0 <= j < |items[1..]| && items[1..][j].kind == kind;
          assert items[j + 1].kind == kind;
        }
      }
      rest
  }

  /** The default profile uses no tracker. */
  lemma DefaultProfileUsesNothing(kind: TrackerKind)
    ensures !UsingTracker(DefaultProfile(), kind)
  {
  }

  /** Adding a registration makes its type used and keeps every other type as it was. */
  lemma UsingTrackerAppend(p: Profile, t: Tracker, kind: TrackerKind)
    ensures UsingTracker(Profile(p.device, p.items + [t]), kind) <==> UsingTracker(p, kind) || t.kind == kind
  {
    var q := Profile(p.device, p.items + [t]);
    if UsingTracker(p, kind) {
      var i :| 0 <= i < |p.items| && p.items[i].kind == kind;
      assert q.items[i] == p.items[i];
    }
    if UsingTracker(q, kind) && !(t.kind == kind) {
      var i :| 0 <= i < |q.items| && q.items[i].kind == kind;
      assert i < |p.items| && p.items[i] == q.items[i];
    }
    assert q.items[|p.items|] == t;
  }

  /** The application settings. Only the ones the core reads are kept. */
  datatype AppConfig = AppConfig(
    defaultDevice: string,
    timeout: int,
    jellyfinUrl: string,
    jellyfinApiKey: string,
    jellyfinActiveUserTime: int,
    trueNasApiKey: string,
    trueNasUrl: string,
    pingTimeout: int)

  /** The settings as a new AppConfig has them. */
  function DefaultConfig(): AppConfig
  {
    AppConfig("", 2000, "", "", 5000, "", "", 5000)
  }
}
