/**
 * The settings the command line builds (the static fields of TextToImage)
 * and the font request made from them once parsing has succeeded.
 */
module Settings {
  import opened FontStyle

  /**
   * One value per static field that the option scanner assigns. The size and
   * the two colours are kept as the tokens given to `Double.valueOf` and
   * `Color.valueOf`; their defaults are the tokens those parsers read as 13,
   * BLACK and WHITE.
   */
  datatype Config = Config(
    text: string,
    isNameUsed: bool,
    name: string,
    family: string,
    weight: Weight,
    posture: Posture,
    size: string,
    foregroundColor: string,
    backgroundColor: string,
    isUnderline: bool,
    isShown: bool,
    output: string,
    formatName: string)

  /** The initial values of the fields. */
  function Defaults(): Config {
    Config(
      text := "Hello, world!",
      isNameUsed := false,
      name := "System Regular",
      family := "System",
      weight := Normal,
      posture := Regular,
      size := "13",
      foregroundColor := "BLACK",
      backgroundColor := "WHITE",
      isUnderline := false,
      isShown := false,
      output := "out.png",
      formatName := "png")
  }

  /** What is asked of the font service: `new Font(name, size)` or `Font.font(family, weight, posture, size)`. */
  datatype FontRequest =
    | ByName(name: string, size: string)
    | ByFamily(family: string, weight: Weight, posture: Posture, size: string)

  /** The font selection in `main`: by name when `isNameUsed`, by family otherwise. */
  function FontFor(c: Config): FontRequest {
    if c.isNameUsed then ByName(c.name, c.size)
    else ByFamily(c.family, c.weight, c.posture, c.size)
  }
}
