/** The C pointers that cross the boundary between the binding and libcurl, abstracted by what
    they point at. */
module Pointers {

  datatype Ptr =
    | Null
      /** an Easy object's private state record (Easy::Pimpl), identified by its address */
    | Record(addr: nat)
      /** a native CURL session handle */
    | Session(id: nat)
      /** a NUL-terminated C string */
    | Text(s: string)
      /** the head of a curl_slist chain holding these strings, in order */
    | Chain(items: seq<string>)
      /** any other pointer supplied by the client (user data, FILE*, curl_httppost*, ...) */
    | Opaque(addr: nat)
}
