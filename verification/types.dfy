/** Data shapes shared by the calculator, the advice lifecycle and the page
    (types.ts). JavaScript `number` is modelled as `real`; a value that may
    be `null` is an `Option`. */
module Types {

  /** `None` stands for the source's `null` (or an unparseable number). */
  datatype Option<+T> = None | Some(value: T)

  /** The five raw figures of one shift, as typed by the driver. */
  datatype DriverInputs = DriverInputs(
    earnings: real,
    kilometers: real,
    hours: real,
    gasPrice: real,   // currency per litre
    efficiency: real  // km per litre
  )

  /** Everything derived from one `DriverInputs`. */
  datatype CalculationResult = CalculationResult(
    fuelCost: real,
    maintenanceCost: real,
    totalExpenses: real,
    netProfit: real,
    hourlyWage: real
  )

  /** Phase of the advice request. */
  datatype LoadingState = Idle | Loading | Success | Error
}
