/**
  The file checks and URL bookkeeping shared by both resource editors:
  `validateFile`, the `new || old || ""` URL merge and the rule for deleting
  a replaced object from storage.
 */
module Uploads {
  import opened Common
  import opened Text

  /** What the page reads of a chosen `File`: its MIME type and byte size. */
  datatype FileInfo = FileInfo(mimeType: string, size: nat)

  /** The object `validateFile` returns: `{ valid: true }` or `{ valid: false, message }`. */
  datatype FileCheck = Valid | Invalid(message: string)

  const IMAGE_TYPES: seq<string> := ["image/jpeg", "image/png"]
  const IMAGE_MAX_MB: nat := 5
  const DOCUMENT_TYPES: seq<string> := [
    "application/pdf",
    "application/vnd.openxmlformats-officedocument.wordprocessingml.document",
    "application/vnd.ms-powerpoint"
  ]
  const DOCUMENT_MAX_MB: nat := 50

  /** Decimal digits of a number, as template literals print it. */
  function NatToString(n: nat): (s: string)
    ensures |s| >= 1
    ensures forall i :: 0 <= i < |s| ==> '0' <= s[i] <= '9'
    decreases n
  {
    var d := ['0' + (n % 10) as char];
    if n < 10 then d else NatToString(n / 10) + d
  }

  /** The byte limit `maxSizeMB * 1024 * 1024`. */
  function SizeLimit(maxSizeMB: nat): nat {
    maxSizeMB * 1024 * 1024
  }

  /**
    `validateFile`: the MIME type is checked first, then the size against
    `maxSizeMB` mebibytes with a strict `>`.
   */
  function ValidateFile(file: FileInfo, allowedTypes: seq<string>, maxSizeMB: nat, fileTypeLabel: string): (r: FileCheck)
    ensures r.Valid? <==> file.mimeType in allowedTypes && file.size <= maxSizeMB * 1048576
    ensures file.mimeType !in allowedTypes ==>
              r == Invalid("Invalid " + fileTypeLabel + " type. Allowed: " + Join(allowedTypes, ", "))
    ensures file.mimeType in allowedTypes && file.size > maxSizeMB * 1048576 ==>
              r == Invalid(fileTypeLabel + " size must be less than " + NatToString(maxSizeMB) + "MB.")
  {
    if file.mimeType !in allowedTypes then
      Invalid("Invalid " + fileTypeLabel + " type. Allowed: " + Join(allowedTypes, ", "))
    else if file.size > SizeLimit(maxSizeMB) then
      Invalid(fileTypeLabel + " size must be less than " + NatToString(maxSizeMB) + "MB.")
    else
      Valid
  }

  /** `newURL || oldURL || ""`: the fresh upload wins, else the stored one, else empty. */
  function MergeUrl(newUrl: Option<string>, oldUrl: string): (r: string)
    ensures newUrl.Some? && newUrl.value != "" ==> r == newUrl.value
    ensures (newUrl.None? || newUrl.value == "") ==> r == oldUrl
  {
    OrElse(OrDefault(newUrl, ""), OrElse(oldUrl, ""))
  }

  /** `oldData.imageURL && oldData.imageURL !== newURL`: when the replaced object is deleted. */
  predicate ShouldDeleteOld(oldUrl: string, newUrl: string) {
    oldUrl != "" && oldUrl != newUrl
  }
}
