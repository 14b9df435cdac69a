/** Editing one form field (`handleInputChange`, App.tsx). The browser's
    `parseFloat` is a parameter: `parse(raw)` is `None` where JavaScript
    yields NaN and `Some(x)` where it yields the number `x`. */
module InputFields {
  import opened Types

  /** The keys of `DriverInputs`. */
  datatype Field = Earnings | Kilometers | Hours | GasPrice | Efficiency

  /** Reads one field of the record. */
  function Get(i: DriverInputs, f: Field): real {
    match f
    case Earnings => i.earnings
    case Kilometers => i.kilometers
    case Hours => i.hours
    case GasPrice => i.gasPrice
    case Efficiency => i.efficiency
  }

  /** Replaces one field of the record. */
  function Set(i: DriverInputs, f: Field, v: real): (r: DriverInputs)
    ensures Get(r, f) == v
    ensures forall g :: g != f ==> Get(r, g) == Get(i, g)
  {
    match f
    case Earnings => i.(earnings := v)
    case Kilometers => i.(kilometers := v)
    case Hours => i.(hours := v)
    case GasPrice => i.(gasPrice := v)
    case Efficiency => i.(efficiency := v)
  }

  /** `parseFloat(value) || 0`: a NaN (unparseable) or zero parse becomes
      zero, every other parsed number is kept. */
  function ParsedOrZero(p: Option<real>): (v: real)
    ensures p.Some? ==> v == p.value
    ensures p.None? ==> v == 0.0
  {
    match p
    case None => 0.0
    case Some(x) => if x != 0.0 then x else 0.0
  }

  /** The state update performed when the driver types `raw` into field `f`:
      that field becomes the parsed number (or zero), all others are kept. */
  function HandleInputChange(i: DriverInputs, f: Field, raw: string, parse: string -> Option<real>): (r: DriverInputs)
    ensures Get(r, f) == ParsedOrZero(parse(raw))
    ensures forall g :: g != f ==> Get(r, g) == Get(i, g)
  {
    Set(i, f, ParsedOrZero(parse(raw)))
  }

  /** A record is determined by its five fields; together with the contract
      of `HandleInputChange` this means the edit changes nothing else. */
  lemma FieldsDetermineRecord(a: DriverInputs, b: DriverInputs)
    requires forall f :: Get(a, f) == Get(b, f)
    ensures a == b
  {
    assert Get(a, Earnings) == Get(b, Earnings);
    assert Get(a, Kilometers) == Get(b, Kilometers);
    assert Get(a, Hours) == Get(b, Hours);
    assert Get(a, GasPrice) == Get(b, GasPrice);
    assert Get(a, Efficiency) == Get(b, Efficiency);
  }

  /** Typing the same text into the same field twice is the same as once. */
  lemma EditIsIdempotent(i: DriverInputs, f: Field, raw: string, parse: string -> Option<real>)
    ensures HandleInputChange(HandleInputChange(i, f, raw, parse), f, raw, parse)
         == HandleInputChange(i, f, raw, parse)
  {
  }

  /** Edits to two different fields do not interfere: either order gives the
      same record. */
  lemma EditsCommute(i: DriverInputs, f: Field, rawF: string, g: Field, rawG: string,
                     parse: string -> Option<real>)
    requires f != g
    ensures HandleInputChange(HandleInputChange(i, f, rawF, parse), g, rawG, parse)
         == HandleInputChange(HandleInputChange(i, g, rawG, parse), f, rawF, parse)
  {
  }

  /** Entering a field's current value again leaves the record as it was,
      provided that value is the parse of the text. */
  lemma ReenteringValueIsNoChange(i: DriverInputs, f: Field, raw: string, parse: string -> Option<real>)
    requires ParsedOrZero(parse(raw)) == Get(i, f)
    ensures HandleInputChange(i, f, raw, parse) == i
  {
  }
}
