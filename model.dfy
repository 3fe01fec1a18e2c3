/** The device records of the contract (contract/assembly/model.ts): a base `Device`
    and its two subclasses `HealthTracker` and `Oximeter`, written as one tagged union
    whose constructors carry the common fields plus each subclass's payload. */
module Model {
  import opened Decimal

  /** AssemblyScript's `i32`. */
  type I32 = x: int | -0x8000_0000 <= x < 0x8000_0000

  /** The two identity sets are per-device fields here, as the class declares them.
      On the host both are `PersistentSet`s built from the constant prefixes "a" and
      "r", so every device would share the same two sets; that aliasing belongs to
      the storage library and is not modelled. */
  datatype Device =
    | Plain(ownerId: string, deviceId: string, deviceType: string, timestamp: string,
            allowedUsers: set<string>, userRequests: set<string>)
    | HealthTracker(ownerId: string, deviceId: string, deviceType: string, timestamp: string,
                    allowedUsers: set<string>, userRequests: set<string>,
                    height: I32, weight: I32, bodyFat: I32, muscleMass: I32)
    | Oximeter(ownerId: string, deviceId: string, deviceType: string, timestamp: string,
               allowedUsers: set<string>, userRequests: set<string>,
               bpm: I32, spo2: I32)

  /** What every constructor guarantees: the four common fields as given, both sets empty. */
  predicate Initialised(d: Device, ownerId: string, deviceId: string, deviceType: string, timestamp: string) {
    && d.ownerId == ownerId && d.deviceId == deviceId
    && d.deviceType == deviceType && d.timestamp == timestamp
    && d.allowedUsers == {} && d.userRequests == {}
  }

  function NewDevice(ownerId: string, deviceId: string, deviceType: string, timestamp: string): (d: Device)
    ensures d.Plain? && Initialised(d, ownerId, deviceId, deviceType, timestamp)
    ensures Args(d) == "{}"
  {
    Plain(ownerId, deviceId, deviceType, timestamp, {}, {})
  }

  function NewHealthTracker(ownerId: string, deviceId: string, deviceType: string, timestamp: string,
                            height: I32, weight: I32, bodyFat: I32, muscleMass: I32): (d: Device)
    ensures d.HealthTracker? && Initialised(d, ownerId, deviceId, deviceType, timestamp)
    ensures d.height == height && d.weight == weight && d.bodyFat == bodyFat && d.muscleMass == muscleMass
  {
    HealthTracker(ownerId, deviceId, deviceType, timestamp, {}, {}, height, weight, bodyFat, muscleMass)
  }

  function NewOximeter(ownerId: string, deviceId: string, deviceType: string, timestamp: string,
                       bpm: I32, spo2: I32): (d: Device)
    ensures d.Oximeter? && Initialised(d, ownerId, deviceId, deviceType, timestamp)
    ensures d.bpm == bpm && d.spo2 == spo2
  {
    Oximeter(ownerId, deviceId, deviceType, timestamp, {}, {}, bpm, spo2)
  }

  /** A state string: wrapped in braces, and nothing in it is a blank. */
  predicate IsStateString(s: string) {
    |s| >= 2 && s[0] == '{' && s[|s| - 1] == '}' && ' ' !in s
  }

  /** `name:value`, the value rendered by `toString()`. */
  function Field(name: string, v: I32): (s: string)
    requires ' ' !in name
    ensures |s| > |name| && ' ' !in s && ',' !in s[|name|..] && '}' !in s[|name|..]
  {
    assert (name + ":" + IntToDec(v))[|name|..] == ":" + IntToDec(v);
    name + ":" + IntToDec(v)
  }

  /** A payload wrapped in braces. */
  function Braced(body: string): (s: string)
    requires ' ' !in body
    ensures IsStateString(s) && |s| == |body| + 2
  {
    "{" + body + "}"
  }

  /** `Device.getArgs`: a plain device has no payload. */
  function BaseArgs(): (s: string)
    ensures IsStateString(s) && |s| == 2
  {
    Braced("")
  }

  /** `HealthTracker.getArgs`: the four measurements in the order height, weight,
      bodyFat, muscleMass, comma-separated without blanks. */
  function HealthTrackerArgs(height: I32, weight: I32, bodyFat: I32, muscleMass: I32): (s: string)
    ensures IsStateString(s) && |s| > 2
  {
    var tail := Field("bodyFat", bodyFat) + "," + Field("muscleMass", muscleMass);
    assert ' ' !in tail;
    var mid := Field("weight", weight) + "," + tail;
    assert ' ' !in mid;
    Braced(Field("height", height) + "," + mid)
  }

  /** `Oximeter.getArgs`: pulse then saturation. */
  function OximeterArgs(bpm: I32, spo2: I32): (s: string)
    ensures IsStateString(s) && |s| > 2
  {
    Braced(Field("bpm", bpm) + "," + Field("spo2", spo2))
  }

  /** `getArgs` dispatched on the record's runtime class. */
  function Args(d: Device): (s: string)
    ensures IsStateString(s)
    ensures |s| == 2 <==> d.Plain?
  {
    match d
    case Plain(_, _, _, _, _, _) => BaseArgs()
    case HealthTracker(_, _, _, _, _, _, h, w, b, m) => HealthTrackerArgs(h, w, b, m)
    case Oximeter(_, _, _, _, _, _, bpm, spo2) => OximeterArgs(bpm, spo2)
  }

  /** Without a `sep` in x, the first `sep` of `x + sep + p` is the one after x. */
  lemma FirstSeparator(x: string, sep: char, p: string)
    requires sep !in x
    ensures (x + [sep] + p)[|x|] == sep
    ensures forall i :: 0 <= i < |x| ==> (x + [sep] + p)[i] != sep
  {
  }

  /** `prefix + x + sep + p` determines x and p, when x holds no `sep`. */
  lemma StripField(prefix: string, x: string, y: string, sep: char, p: string, q: string)
    requires sep !in x && sep !in y
    requires prefix + x + [sep] + p == prefix + y + [sep] + q
    ensures x == y && p == q
  {
    var s := prefix + x + [sep] + p;
    var t := prefix + y + [sep] + q;
    assert s[|prefix|..] == x + [sep] + p;
    assert t[|prefix|..] == y + [sep] + q;
    var u, v := x + [sep] + p, y + [sep] + q;
    // the first `sep` of u and of v sits at the same position
    FirstSeparator(x, sep, p);
    FirstSeparator(y, sep, q);
    assert u == v;
    assert |x| == |y|;
    assert x == u[..|x|] && y == v[..|y|];
    assert p == u[|x| + 1..] && q == v[|y| + 1..];
  }

  lemma BracedInjective(a: string, b: string)
    requires ' ' !in a && ' ' !in b
    requires Braced(a) == Braced(b)
    ensures a == b
  {
    assert a == Braced(a)[1..|Braced(a)| - 1];
    assert b == Braced(b)[1..|Braced(b)| - 1];
  }

  /** A field's text determines its value. */
  lemma FieldInjective(name: string, v: I32, v': I32)
    requires ' ' !in name
    requires Field(name, v) == Field(name, v')
    ensures v == v'
  {
    assert IntToDec(v) == Field(name, v)[|name| + 1..];
    assert IntToDec(v') == Field(name, v')[|name| + 1..];
    DecInjective(v, v');
  }

  /** A leading field and the rest of the list are recovered at the first comma. */
  lemma LeadingFieldInjective(name: string, v: I32, v': I32, p: string, q: string)
    requires ' ' !in name && ',' !in name
    requires Field(name, v) + "," + p == Field(name, v') + "," + q
    ensures v == v' && p == q
  {
    var x, y := Field(name, v), Field(name, v');
    assert x == name + x[|name|..] && ',' !in x[|name|..];
    assert y == name + y[|name|..] && ',' !in y[|name|..];
    assert x + "," + p == name + x[|name|..] + [','] + p;
    assert y + "," + q == name + y[|name|..] + [','] + q;
    StripField(name, x[|name|..], y[|name|..], ',', p, q);
    FieldInjective(name, v, v');
  }

  /** The Oximeter state string determines both readings. */
  lemma OximeterArgsInjective(bpm: I32, spo2: I32, bpm': I32, spo2': I32)
    requires OximeterArgs(bpm, spo2) == OximeterArgs(bpm', spo2')
    ensures bpm == bpm' && spo2 == spo2'
  {
    BracedInjective(Field("bpm", bpm) + "," + Field("spo2", spo2), Field("bpm", bpm') + "," + Field("spo2", spo2'));
    LeadingFieldInjective("bpm", bpm, bpm', Field("spo2", spo2), Field("spo2", spo2'));
    FieldInjective("spo2", spo2, spo2');
  }

  /** The HealthTracker state string determines all four measurements. */
  lemma HealthTrackerArgsInjective(h: I32, w: I32, b: I32, m: I32, h': I32, w': I32, b': I32, m': I32)
    requires HealthTrackerArgs(h, w, b, m) == HealthTrackerArgs(h', w', b', m')
    ensures h == h' && w == w' && b == b' && m == m'
  {
    var r2, r2' := Field("bodyFat", b) + "," + Field("muscleMass", m), Field("bodyFat", b') + "," + Field("muscleMass", m');
    var r1, r1' := Field("weight", w) + "," + r2, Field("weight", w') + "," + r2';
    BracedInjective(Field("height", h) + "," + r1, Field("height", h') + "," + r1');
    LeadingFieldInjective("height", h, h', r1, r1');
    LeadingFieldInjective("weight", w, w', r2, r2');
    LeadingFieldInjective("bodyFat", b, b', Field("muscleMass", m), Field("muscleMass", m'));
    FieldInjective("muscleMass", m, m');
  }

  /** The state of an oximeter reading 70 bpm at 99% saturation. */
  lemma OximeterArgsExample()
    ensures OximeterArgs(70, 99) == "{bpm:70,spo2:99}"
  {
  }

  /** The field-by-field construction is the flat concatenation the source writes. */
  lemma OximeterArgsFlat(bpm: I32, spo2: I32)
    ensures OximeterArgs(bpm, spo2) == "{bpm:" + IntToDec(bpm) + ",spo2:" + IntToDec(spo2) + "}"
  {
  }

  /** A health tracker at 170 cm and 72 kg, with the body-fat reading -3 and 41 for
      muscle mass. */
  lemma HealthTrackerArgsExample()
    ensures HealthTrackerArgs(170, 72, -3, 41) == "{height:170,weight:72,bodyFat:-3,muscleMass:41}"
  {
    HealthTrackerArgsFlat(170, 72, -3, 41);
    ExampleRendering();
  }

  /** The source's concatenation, evaluated at the example's four readings. */
  lemma ExampleRendering()
    ensures "{height:" + IntToDec(170) + ",weight:" + IntToDec(72)
            + ",bodyFat:" + IntToDec(-3) + ",muscleMass:" + IntToDec(41) + "}"
            == "{height:170,weight:72,bodyFat:-3,muscleMass:41}"
  {
    assert NatToDec(17) == "17";
    assert IntToDec(170) == "170" && IntToDec(72) == "72";
    assert IntToDec(-3) == "-3" && IntToDec(41) == "41";
    ExampleText("170", "72", "-3", "41");
  }

  lemma ExampleText(hs: string, ws: string, bs: string, ms: string)
    requires hs == "170" && ws == "72" && bs == "-3" && ms == "41"
    ensures "{height:" + hs + ",weight:" + ws + ",bodyFat:" + bs + ",muscleMass:" + ms + "}"
            == "{height:170,weight:72,bodyFat:-3,muscleMass:41}"
  {
  }

  /** Regrouping the four rendered fields into the source's left-to-right concatenation. */
  lemma HealthTrackerRegroup(hs: string, ws: string, bs: string, ms: string)
    ensures "{" + ("height" + ":" + hs + "," + ("weight" + ":" + ws + ","
                  + ("bodyFat" + ":" + bs + "," + ("muscleMass" + ":" + ms)))) + "}"
            == "{height:" + hs + ",weight:" + ws + ",bodyFat:" + bs + ",muscleMass:" + ms + "}"
  {
  }

  /** The field-by-field construction is the flat concatenation the source writes. */
  lemma HealthTrackerArgsFlat(h: I32, w: I32, b: I32, m: I32)
    ensures HealthTrackerArgs(h, w, b, m)
            == "{height:" + IntToDec(h) + ",weight:" + IntToDec(w)
               + ",bodyFat:" + IntToDec(b) + ",muscleMass:" + IntToDec(m) + "}"
  {
    HealthTrackerRegroup(IntToDec(h), IntToDec(w), IntToDec(b), IntToDec(m));
  }
}
