/** The records of types.ts: display language, the three uploaded views, the
    analysis returned by the hosted model and one generated history entry. */
module Types {
  import opened Wrappers

  datatype Language = EN | CN

  /** One recommended hairstyle: `name`, `description`, `reason`. */
  datatype Hairstyle = Hairstyle(name: string, description: string, reason: string)

  /** One recommended pair of glasses: `style`, `description`, `reason`. */
  datatype Glasses = Glasses(style: string, description: string, reason: string)

  datatype AnalysisResult = AnalysisResult(
    faceShape: string,
    skinTone: string,
    recommendedHairstyles: seq<Hairstyle>,
    recommendedGlasses: seq<Glasses>)

  /** A `string | null` value is truthy in JavaScript when it is a
      non-empty string: `null` and `""` both fail `if (x)`. */
  predicate Truthy(x: Option<string>)
  {
    x.Some? && x.value != ""
  }

  /** The three upload slots of `ImageState`. */
  datatype View = Front | Left | Right

  /** Each slot holds a data URL or nothing (`null`). */
  datatype ImageState = ImageState(front: Option<string>, left: Option<string>, right: Option<string>)
  {
    function Get(v: View): Option<string>
    {
      match v
      case Front => front
      case Left => left
      case Right => right
    }

    /** The state with slot `v` overwritten by `x` (the `{ ...prev, v: x }` update). */
    function Set(v: View, x: Option<string>): (r: ImageState)
      ensures r.Get(v) == x
      ensures forall w :: w != v ==> r.Get(w) == Get(w)
    {
      match v
      case Front => this.(front := x)
      case Left => this.(left := x)
      case Right => this.(right := x)
    }

    /** All three slots are truthy, the test `handleAnalyze` makes. */
    predicate Complete()
    {
      Truthy(front) && Truthy(left) && Truthy(right)
    }
  }

  const NoImages := ImageState(None, None, None)

  /** Which styles produced a generated image; absent when not selected. */
  datatype HistoryOptions = HistoryOptions(hairName: Option<string>, glassesName: Option<string>)

  datatype GenerationHistoryItem = GenerationHistoryItem(
    id: string,
    imageUrl: string,
    timestamp: int,
    options: HistoryOptions)
}
