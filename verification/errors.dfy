/** The exception classes that cross module boundaries. The bot's own
    classes (`DownloaderError`, `ConversionError`, `ServiceError`) carry a
    message; the built-in classes the core raises on purpose are named,
    and every other exception keeps its class name and text. */
module Errors {

  datatype Error =
    | DownloaderError(msg: string)
    | ConversionError(msg: string)
    | ServiceError(msg: string)
    | ValueError(msg: string)
    | FileNotFoundError(msg: string)
    | OtherError(className: string, msg: string)
  {
    /** `type(e).__name__`. */
    function TypeName(): string {
      match this
      case DownloaderError(_) => "DownloaderError"
      case ConversionError(_) => "ConversionError"
      case ServiceError(_) => "ServiceError"
      case ValueError(_) => "ValueError"
      case FileNotFoundError(_) => "FileNotFoundError"
      case OtherError(name, _) => name
    }

    /** `str(e)`. */
    function Message(): string {
      msg
    }

    /** The bot's own error classes, which the service re-raises as they are. */
    predicate IsBotError() {
      DownloaderError? || ConversionError? || ServiceError?
    }
  }
}
