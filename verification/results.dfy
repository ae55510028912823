/** The outcome record every client operation returns, and the builder that
    assembles it field by field. */
module Results {
  import opened Java
  import opened Network

  /** The immutable outcome record. Its fields are final and each getter
      (isSuccess, getUserId, getError, getConfidence, getUsers, getFaceData)
      returns one of them, so the getters are this datatype's destructors. */
  datatype FaceRecognitionResult = FaceRecognitionResult(
    success: bool,
    userId: JString,
    confidence: Float32,
    error: JString,
    users: Option<seq<ApiResponse>>,
    faceData: JString)

  /** The record a fresh builder would build: Java's field defaults. */
  const Defaults := FaceRecognitionResult(false, None, FloatZero, None, None, None)

  class Builder {
    var success: bool
    var userId: JString
    var error: JString
    var confidence: Float32
    var users: Option<seq<ApiResponse>>
    var faceData: JString

    /** The six builder fields, arranged as the record build() makes of them. */
    function Current(): FaceRecognitionResult
      reads this
    {
      FaceRecognitionResult(success, userId, confidence, error, users, faceData)
    }

    /** A new builder holds the Java defaults: false, null, 0 and null. */
    constructor ()
      ensures Current() == Defaults
    {
      success, userId, error, confidence, users, faceData := false, None, None, FloatZero, None, None;
    }

    method SetSuccess(success: bool) returns (self: Builder)
      modifies this
      ensures self == this
      ensures Current() == old(Current()).(success := success)
    {
      this.success := success;
      self := this;
    }

    method SetFaceData(faceData: JString) returns (self: Builder)
      modifies this
      ensures self == this
      ensures Current() == old(Current()).(faceData := faceData)
    {
      this.faceData := faceData;
      self := this;
    }

    method SetUserId(userId: JString) returns (self: Builder)
      modifies this
      ensures self == this
      ensures Current() == old(Current()).(userId := userId)
    {
      this.userId := userId;
      self := this;
    }

    method SetError(error: JString) returns (self: Builder)
      modifies this
      ensures self == this
      ensures Current() == old(Current()).(error := error)
    {
      this.error := error;
      self := this;
    }

    method SetConfidence(confidence: Float32) returns (self: Builder)
      modifies this
      ensures self == this
      ensures Current() == old(Current()).(confidence := confidence)
    {
      this.confidence := confidence;
      self := this;
    }

    method SetUsers(users: Option<seq<ApiResponse>>) returns (self: Builder)
      modifies this
      ensures self == this
      ensures Current() == old(Current()).(users := users)
    {
      this.users := users;
      self := this;
    }

    /** Copies the six fields into a new record; the builder itself is not reset. */
    method Build() returns (r: FaceRecognitionResult)
      ensures r.success == success && r.userId == userId && r.confidence == confidence
      ensures r.error == error && r.users == users && r.faceData == faceData
    {
      r := FaceRecognitionResult(success, userId, confidence, error, users, faceData);
    }
  }

  /** Two calls of one setter on a fresh builder: the second value is the one built,
      and every other field keeps its default. */
  method LastErrorWins(first: JString, second: JString) returns (r: FaceRecognitionResult)
    ensures r == Defaults.(error := second)
  {
    var b := new Builder();
    b := b.SetError(first);
    b := b.SetError(second);
    r := b.Build();
  }

  /** Building twice from one builder, with nothing set in between, gives equal records
      that carry the builder's fields. */
  method BuildTwice(b: Builder) returns (r1: FaceRecognitionResult, r2: FaceRecognitionResult)
    ensures r1 == r2 == b.Current()
  {
    r1 := b.Build();
    r2 := b.Build();
  }
}
