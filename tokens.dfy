/** The `_TOKENS` table of xy_grapher and the two file-name constants the
    parser checks against. */
module Tokens {

  /** Declares that the file is an .xyc configuration file. */
  const HeadTag := "__xyc__"
  /** Declares one CSV file and its series. */
  const FileTag := "__file__"
  /** Explicit end of the configuration. */
  const EndTag := "__end__"
  /** Declares the x label, y label and title of the graph. */
  const ParamsTag := "__params__"
  /** Declares the format specifier(s). */
  const FormatTag := "__format__"
  /** Starts a comment. */
  const CommentMark := '#'
  /** Continues a line on the next physical line. */
  const LineBreak := '\\'
  /** Major split: directive, path and series list. */
  const MajorSep := ':'
  /** Minor split: one series clause from the next. */
  const MinorSep := ';'
  /** Series split: the fields of one clause. */
  const SeriesSep := ','

  /** The required suffix of every data file path. */
  const CsvExt := ".csv"
  /** The format specifier that lets the plotting library choose. */
  const AutoFormat := "AUTO_FORMAT"

  /** The values of the token table, separators and the empty string
      included: a leading token is "recognised" when it is one of them. */
  const TokenValues: set<string> :=
    {HeadTag, FileTag, EndTag, ParamsTag, FormatTag, [CommentMark], [LineBreak], "",
     [MajorSep], [MinorSep], [SeriesSep]}
}
