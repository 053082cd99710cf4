/** The service's domain errors (app/services/exceptions.py), as an error-kind datatype. */
module Errors {

  datatype Error =
    /** `InvalidFileTypeError`: the declared MIME type is not on the allow-list. */
    | InvalidFileType(mimeType: string)
    /** `FileTooLargeError`: the content size is zero or above the maximum. */
    | FileTooLarge(size: int)
    /** `ImageNotFoundError`: neither a cached analysis nor an image exists for the id. */
    | ImageNotFound(imageId: string)
}
