/** What the model needs of the media engine (aiortc in Python, the browser's
    RTCPeerConnection in JavaScript): session descriptions. Creating offers
    and answers is the engine's job; the model receives the descriptions it
    produces as parameters and only moves them between messages. */
module Media {
  import opened Json

  /** An SDP session description: its `sdp` text and its `type`
      (`offer`, `answer`, ...), as carried in JSON. */
  datatype Description = Description(sdp: Value, kind: Value)
}
