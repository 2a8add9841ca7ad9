/** The errors the tool throws. `ArgumentError` is declared twice in the sources
    (Info/Errors.swift and Info/ConsoleArgsParser.swift); this is the union of both.
    `RuntimeError` adds `InfoFileNotExists`, which the loader throws although the
    declaration in Info/Errors.swift lacks it. */
module Errors {
  import Json

  datatype ArgumentError =
    | MissingMode
    | UnknownMode(mode: string)
    | OnRootDir
    | UnknownAttribute(attribute: string)
    | UnknownArguments(arguments: string)

  datatype RuntimeError =
    | TargetDirNotExists(dirPath: string)
    | InfoFileExists(infoFilePath: string)
    | InfoFileNotExists(infoFilePath: string)

  /** Everything the saver and the loader can propagate: their own runtime errors,
      a decoding error from the snapshot file, or a failed attribute read
      (`URL.resourceValues(forKeys:)`) of the named entry. */
  datatype Failure =
    | Runtime(runtime: RuntimeError)
    | Decoding(decoding: Json.DecodingError)
    | ResourceReadFailed(entryName: string)
}
