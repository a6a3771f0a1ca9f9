/** The exceptions the preparation script can end with, one constructor per cause. */
module Errors {

  datatype Error =
    | UnexpectedTif(path: string)   // ValueError raised by band_name for a stem without '_'
    | BadTimestamp(text: string)    // ValueError raised by the timestamp parser
    | DateOverflow                  // OverflowError: a datetime left 0001-01-01 .. 9999-12-31
    | NotASceneId(stem: string)     // AttributeError: the scene-ID pattern did not match
    | NoMetadataFile                // UnboundLocalError: no listed file qualified as metafile
    | NoGlobalMetadata              // UnboundLocalError: no global_metadata element set aos
    | MissingField(key: string)     // KeyError on the fields dictionary
    | NotAnInteger(key: string)     // ValueError / TypeError raised by int(fields[key])
    | NoImages                      // IndexError: the band map is empty
}
