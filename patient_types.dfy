/** The patient record shared by the dashboard's frontend and backend
    (frontend/src/types/Patient.ts), with the small helper datatypes the
    other modules use. */
module PatientTypes {

  datatype Option<+T> = None | Some(value: T)

  datatype Sex = M | F
  datatype ChestPainType = ATA | NAP | ASY | TA
  datatype RestingECG = Normal | ST | LVH
  datatype ExerciseAngina = Y | N
  datatype StSlope = Up | Flat | Down

  /** The `0 | 1` literal type of FastingBS and HeartDisease. */
  type Bit = x: int | 0 <= x <= 1

  /** One patient row. `oldpeak` is only ever compared, so an exact real stands in for the
      JavaScript number; the other numeric fields hold integers. */
  datatype Patient = Patient(
    id: int,
    age: int,
    sex: Sex,
    chestPainType: ChestPainType,
    restingBP: int,
    cholesterol: int,
    fastingBS: Bit,
    restingECG: RestingECG,
    maxHR: int,
    exerciseAngina: ExerciseAngina,
    oldpeak: real,
    stSlope: StSlope,
    heartDisease: Bit
  )

  /** The eleven attributes a prediction request carries: a patient without `id` and `HeartDisease`. */
  datatype PatientInput = PatientInput(
    age: int,
    sex: Sex,
    chestPainType: ChestPainType,
    restingBP: int,
    cholesterol: int,
    fastingBS: Bit,
    restingECG: RestingECG,
    maxHR: int,
    exerciseAngina: ExerciseAngina,
    oldpeak: real,
    stSlope: StSlope
  )

  /** The text the database and the JSON payloads store for each enumeration value. */
  function SexText(s: Sex): string {
    match s
    case M => "M"
    case F => "F"
  }

  function ChestPainText(c: ChestPainType): string {
    match c
    case ATA => "ATA"
    case NAP => "NAP"
    case ASY => "ASY"
    case TA => "TA"
  }

  function EcgText(e: RestingECG): string {
    match e
    case Normal => "Normal"
    case ST => "ST"
    case LVH => "LVH"
  }

  function AnginaText(a: ExerciseAngina): string {
    match a
    case Y => "Y"
    case N => "N"
  }

  function SlopeText(s: StSlope): string {
    match s
    case Up => "Up"
    case Flat => "Flat"
    case Down => "Down"
  }
}
