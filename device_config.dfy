/** The (device, compute_type) pairs the Whisper backends accept, shared by
    the streaming transcriber (src/websocket/stream_transcriber.py) and the
    REST transcriber (src/rest/rest_transcriber.py). */
module DeviceConfig {
  /** CPU runs only int8; CUDA runs float16 or int8_float16. */
  predicate Accepted(device: string, computeType: string) {
    (device == "cpu" && computeType == "int8") ||
    (device == "cuda" && computeType == "float16") ||
    (device == "cuda" && computeType == "int8_float16")
  }

  /** An accepted pair is kept; any other pair falls back to cpu/int8. */
  function Normalize(device: string, computeType: string): (r: (string, string))
    ensures Accepted(r.0, r.1)
    ensures Accepted(device, computeType) <==> r == (device, computeType)
    ensures !Accepted(device, computeType) ==> r == ("cpu", "int8")
  {
    if Accepted(device, computeType) then (device, computeType) else ("cpu", "int8")
  }

  /** Normalising twice changes nothing more. */
  lemma NormalizeIdempotent(device: string, computeType: string)
    ensures var r := Normalize(device, computeType); Normalize(r.0, r.1) == r
  {
  }
}
