/** Records shared by the persistence, service and evidence modules. */
module Records {

  datatype Option<+T> = None | Some(value: T)

  datatype Result<+T, +E> = Ok(value: T) | Err(error: E)

  /** Identities stand for UUIDs; instants are integer microseconds. */
  type Id = nat
  type Instant = int

  /**
   * The values a JSON column can hold. A fraction is a finite numeral, with -125 and 2 for -1.25. A missing key reads
   * as Null, as dict.get does.
   */
  datatype Value =
    | Null
    | Flag(b: bool)
    | Int(n: int)
    | Fraction(digits: int, places: nat)
    | Text(s: string)
    | Items(items: seq<Value>)
    | Object(fields: map<string, Value>)

  /** The number a value stands for, written with a fraction or without. */
  function NumberOf(v: Value): Option<real> {
    match v
    case Int(n) => Some(n as real)
    case Fraction(digits, places) => Some(Shifted(digits as real, places))
    case _ => None
  }

  /** The decimal point moved to the left. */
  function Shifted(x: real, places: nat): real
    decreases places
  {
    if places == 0 then x else Shifted(x / 10.0, places - 1)
  }

  type Payload = map<string, Value>

  function Get(payload: Payload, name: string): Value {
    if name in payload then payload[name] else Null
  }

  /** White space, as str.isspace and str.strip see it. */
  predicate IsSpace(ch: char) {
    ch in " \t\n\r" || '\U{b}' <= ch <= '\U{c}' || '\U{1c}' <= ch <= '\U{1f}' || '\U{2000}' <= ch <= '\U{200a}'
    || ch in ['\U{85}', '\U{a0}', '\U{1680}', '\U{2028}', '\U{2029}', '\U{202f}', '\U{205f}', '\U{3000}']
  }

  predicate OnlySpaces(s: string) {
    forall i :: 0 <= i < |s| ==> IsSpace(s[i])
  }
}
