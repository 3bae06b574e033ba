/** The read side of the ingestion path: the sensor-history endpoint, which
    returns a sensor's readings from a recent window in timestamp order, and
    the actuator-detail endpoint. Both answer "not found" both for a missing
    row and for a row the caller does not own. Times are whole seconds. */
module History {
  import opened Wrappers
  import opened Devices
  import Sorting

  const Hour: nat := 3600
  const Day: nat := 24 * Hour

  /** The period used when the query has none. */
  const DefaultPeriod := "24h"

  /** The periods the endpoint knows by name. */
  predicate KnownPeriod(period: string) {
    period in ["1h", "12h", "24h", "7d", "30d"]
  }

  /** How far back a period reaches; an unrecognised period reaches back
      as far as the default one. */
  function Window(period: string): nat {
    if period == "1h" then Hour
    else if period == "12h" then 12 * Hour
    else if period == "24h" then 24 * Hour
    else if period == "7d" then 7 * Day
    else if period == "30d" then 30 * Day
    else 24 * Hour
  }

  /** Known periods are strictly ordered by reach, and every window is one
      of theirs: an unknown period behaves as the default one. */
  lemma WindowsAreOrdered(period: string)
    ensures Window("1h") < Window("12h") < Window("24h") < Window("7d") < Window("30d")
    ensures !KnownPeriod(period) ==> Window(period) == Window(DefaultPeriod)
    ensures Hour <= Window(period) <= 30 * Day
  {
  }

  /** The first row satisfying `p`, as a lookup by primary key returns it. */
  function First<T>(xs: seq<T>, p: T -> bool): (r: Option<T>)
    ensures r.Some? ==> r.value in xs && p(r.value)
    ensures r.None? <==> forall i :: 0 <= i < |xs| ==> !p(xs[i])
    ensures forall i :: 0 <= i < |xs| && p(xs[i]) && (forall j :: 0 <= j < i ==> !p(xs[j])) ==> r == Some(xs[i])
  {
    if |xs| == 0 then None
    else if p(xs[0]) then Some(xs[0])
    else
      var r := First(xs[1..], p);
      assert r.None? ==> forall i :: 0 <= i < |xs| ==> !p(xs[i]) by {
        if r.None? {
          forall i | 0 <= i < |xs| ensures !p(xs[i]) {
            if i > 0 { assert xs[i] == xs[1..][i - 1]; }
          }
        }
      }
      r
  }

  /** The owner of the project of the device a row hangs on, when the
      foreign keys resolve. */
  function OwnerOf(devices: seq<Device>, projects: seq<Project>, device: nat): (r: Option<nat>)
    ensures r.Some? ==> exists d, p :: d in devices && p in projects && d.pk == device
                                       && p.pk == d.project && r.value == p.owner
  {
    match First(devices, (d: Device) => d.pk == device)
    case None => None
    case Some(d) =>
      match First(projects, (p: Project) => p.pk == d.project)
      case None => None
      case Some(p) => Some(p.owner)
  }

  /** The caller may see rows on `device`. */
  predicate Owns(user: nat, devices: seq<Device>, projects: seq<Project>, device: nat) {
    OwnerOf(devices, projects, device) == Some(user)
  }

  /** `Http404`: the row is missing or belongs to someone else. */
  datatype NotFound = NotFound

  /** The readings of sensor `sensorPk` taken at `start` or later, in
      store order. */
  function Recent(readings: seq<SensorData>, sensorPk: nat, start: int): (r: seq<SensorData>)
    ensures forall sd :: sd in r <==> sd in readings && sd.sensor.pk == sensorPk && sd.timestamp >= start
    ensures |r| <= |readings|
  {
    if |readings| == 0 then []
    else
      var rest := Recent(readings[1..], sensorPk, start);
      assert forall sd :: sd in readings <==> sd == readings[0] || sd in readings[1..] by {
        assert readings == [readings[0]] + readings[1..];
      }
      var sd := readings[0];
      if sd.sensor.pk == sensorPk && sd.timestamp >= start then [sd] + rest else rest
  }

  /** A later start selects a sub-multiset of the rows: a shorter window
      never shows a reading a longer one hides. */
  lemma {:induction false} LaterStartSelectsFewer(readings: seq<SensorData>, sensorPk: nat, early: int, late: int)
    requires early <= late
    ensures multiset(Recent(readings, sensorPk, late)) <= multiset(Recent(readings, sensorPk, early))
  {
    if |readings| > 0 {
      LaterStartSelectsFewer(readings[1..], sensorPk, early, late);
    }
  }

  /** The endpoint's answer: the sensor, its readings in the window in
      ascending time, the period as asked for, and the window's bounds. */
  datatype Page = Page(sensor: Sensor, data: seq<SensorData>, period: string, startTime: int, endTime: int)

  function ByTime(sd: SensorData): int { sd.timestamp }

  /** `get_sensor`: the sensor with this key, if the caller owns it. */
  function OwnedSensor(user: nat, sensorPk: nat, db: Db, projects: seq<Project>): (r: Option<Sensor>)
    ensures r.Some? ==> r.value in db.sensors && r.value.pk == sensorPk && Owns(user, db.devices, projects, r.value.device)
    ensures r.None? <==> ((forall i :: 0 <= i < |db.sensors| ==> db.sensors[i].pk != sensorPk)
                          || !Owns(user, db.devices, projects, First(db.sensors, (s: Sensor) => s.pk == sensorPk).value.device))
  {
    match First(db.sensors, (s: Sensor) => s.pk == sensorPk)
    case None => None
    case Some(sensor) => if Owns(user, db.devices, projects, sensor.device) then Some(sensor) else None
  }

  /** The page for an owned sensor: the window the period names, ending now. */
  function PageFor(sensor: Sensor, period: string, now: int, readings: seq<SensorData>): (page: Page)
    ensures page.sensor == sensor && page.period == period && page.endTime == now
    ensures page.startTime == now - Window(period)
    ensures page.data == InWindow(readings, sensor.pk, page.startTime)
  {
    var start := now - Window(period);
    Page(sensor, InWindow(readings, sensor.pk, start), period, start, now)
  }

  /** `filter(sensor=…, timestamp__gte=start).order_by('timestamp')`. */
  function InWindow(readings: seq<SensorData>, sensorPk: nat, start: int): (data: seq<SensorData>)
    ensures multiset(data) == multiset(Recent(readings, sensorPk, start))
    ensures Sorting.SortedBy(data, ByTime)
    ensures forall sd :: sd in data <==> sd in readings && sd.sensor.pk == sensorPk && start <= sd.timestamp
  {
    var data := Sorting.SortBy(Recent(readings, sensorPk, start), ByTime);
    assert forall sd :: sd in data <==> sd in Recent(readings, sensorPk, start) by {
      forall sd ensures sd in data <==> sd in Recent(readings, sensorPk, start) {
        assert sd in data <==> sd in multiset(data);
      }
    }
    data
  }

  /** `SensorDataAPIView.get`: not found unless the caller owns the
      sensor; otherwise the page for the period asked for, "24h" when
      none is. */
  function SensorHistory(user: nat, sensorPk: nat, period: Option<string>, now: int,
                         db: Db, projects: seq<Project>): (r: Result<Page, NotFound>)
    ensures r.Err? <==> OwnedSensor(user, sensorPk, db, projects).None?
    ensures r.Ok? ==>
              var page := r.value;
              && page.sensor in db.sensors && page.sensor.pk == sensorPk
              && page.period == period.GetOr(DefaultPeriod)
              && page.endTime == now
              && page.startTime == now - Window(page.period)
              && Sorting.SortedBy(page.data, ByTime)
              && (forall sd :: sd in page.data <==>
                    sd in db.readings && sd.sensor.pk == sensorPk && page.startTime <= sd.timestamp)
  {
    match OwnedSensor(user, sensorPk, db, projects)
    case None => Err(NotFound)
    case Some(sensor) => Ok(PageFor(sensor, period.GetOr(DefaultPeriod), now, db.readings))
  }

  /** Without a period the endpoint answers exactly as for "24h", and an
      unknown period shows the same readings as "24h" while echoing the
      period it was given. */
  lemma UnknownPeriodShowsTheDefaultWindow(user: nat, sensorPk: nat, period: string, now: int,
                                           db: Db, projects: seq<Project>)
    requires !KnownPeriod(period)
    ensures SensorHistory(user, sensorPk, None, now, db, projects)
            == SensorHistory(user, sensorPk, Some(DefaultPeriod), now, db, projects)
    ensures var a := SensorHistory(user, sensorPk, Some(period), now, db, projects);
            var b := SensorHistory(user, sensorPk, Some(DefaultPeriod), now, db, projects);
            a.Ok? == b.Ok? && (a.Ok? ==> a.value == b.value.(period := period))
  {
    match OwnedSensor(user, sensorPk, db, projects)
    case None =>
    case Some(sensor) => SameWindowSamePage(sensor, period, DefaultPeriod, now, db.readings);
  }

  /** Two periods with the same reach give the same page but for the
      period it echoes. */
  lemma SameWindowSamePage(sensor: Sensor, p: string, q: string, now: int, readings: seq<SensorData>)
    requires Window(p) == Window(q)
    ensures PageFor(sensor, p, now, readings) == PageFor(sensor, q, now, readings).(period := p)
  {
    var a, b := PageFor(sensor, p, now, readings), PageFor(sensor, q, now, readings);
    assert a.startTime == b.startTime;
    assert a.data == b.data;
  }

  /** A shorter period never shows a reading a longer one hides. */
  lemma ShorterPeriodShowsFewer(user: nat, sensorPk: nat, short: string, long: string, now: int,
                                db: Db, projects: seq<Project>)
    requires Window(short) <= Window(long)
    requires OwnedSensor(user, sensorPk, db, projects).Some?
    ensures var a := SensorHistory(user, sensorPk, Some(short), now, db, projects).value;
            var b := SensorHistory(user, sensorPk, Some(long), now, db, projects).value;
            multiset(a.data) <= multiset(b.data)
  {
    var sensor := OwnedSensor(user, sensorPk, db, projects).value;
    PagesAreNested(sensor, short, long, now, db.readings);
  }

  /** The readings a shorter window shows are among those a longer one shows. */
  lemma PagesAreNested(sensor: Sensor, short: string, long: string, now: int, readings: seq<SensorData>)
    requires Window(short) <= Window(long)
    ensures multiset(PageFor(sensor, short, now, readings).data) <= multiset(PageFor(sensor, long, now, readings).data)
  {
    var a, b := PageFor(sensor, short, now, readings), PageFor(sensor, long, now, readings);
    InWindowIsMonotone(readings, sensor.pk, b.startTime, a.startTime);
  }

  lemma InWindowIsMonotone(readings: seq<SensorData>, sensorPk: nat, early: int, late: int)
    requires early <= late
    ensures multiset(InWindow(readings, sensorPk, late)) <= multiset(InWindow(readings, sensorPk, early))
  {
    LaterStartSelectsFewer(readings, sensorPk, early, late);
  }

  /** `ActuatorDetailAPIView.get`: the actuator, if the caller owns it. */
  function ActuatorDetail(user: nat, actuatorPk: nat, actuators: seq<Actuator>, devices: seq<Device>,
                          projects: seq<Project>): (r: Result<Actuator, NotFound>)
    ensures r.Ok? ==> r.value in actuators && r.value.pk == actuatorPk && Owns(user, devices, projects, r.value.device)
    ensures (forall i :: 0 <= i < |actuators| ==> actuators[i].pk != actuatorPk) ==> r.Err?
    ensures (forall a :: a in actuators && a.pk == actuatorPk ==> !Owns(user, devices, projects, a.device)) ==> r.Err?
    ensures forall i :: (0 <= i < |actuators| && actuators[i].pk == actuatorPk
                         && (forall j :: 0 <= j < i ==> actuators[j].pk != actuatorPk)
                         && Owns(user, devices, projects, actuators[i].device)) ==> r == Ok(actuators[i])
  {
    match First(actuators, (a: Actuator) => a.pk == actuatorPk)
    case None => Err(NotFound)
    case Some(a) => if Owns(user, devices, projects, a.device) then Ok(a) else Err(NotFound)
  }
}
