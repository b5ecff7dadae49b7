/** An append-only file of lines, as far as a crash or a failed write can tear it. */
module TornFile {

  /** What follows the last newline. */
  datatype Tail<L> = Clean | Fragment | Unended(line: L)

  datatype File<L> = File(lines: seq<L>, tail: Tail<L>)

  /** How much of one appended line reaches the file. */
  datatype Write = Whole | AllButNewline | Part | Nothing

  /** A line appended behind a torn one runs into it: the reader sees `garbled`. */
  function WithLine<L>(f: File<L>, x: L, garbled: L, w: Write): File<L> {
    match w
    case Nothing => f
    case Part => File(f.lines, Fragment)
    case AllButNewline => File(f.lines, if f.tail.Clean? then Unended(x) else Fragment)
    case Whole => File(f.lines + [if f.tail.Clean? then x else garbled], Clean)
  }
}
