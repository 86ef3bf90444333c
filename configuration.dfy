/**
 * The extended client's configuration. The client copies it when it is
 * constructed and never changes it afterwards, so here it is a value.
 * The object-store client and bucket are present exactly when large-payload
 * support is enabled, which the shape of LargePayloadSupport enforces.
 */
module Configuration {

  import opened SqsModel
  import opened Backends

  datatype LargePayloadSupport =
    | Disabled
    | Enabled(s3: S3Client, s3BucketName: string)

  datatype ClientConfiguration = ClientConfiguration(
    largePayloadSupport: LargePayloadSupport,
    alwaysThroughS3: bool,
    messageSizeThreshold: int)
  {
    predicate IsLargePayloadSupportEnabled()
    {
      largePayloadSupport.Enabled?
    }
  }

  /**
   * Support enabled for `s3` and `bucket`, not forced through the store, and
   * the queue's own limit as threshold: the configuration the client's
   * defaultClient factory builds.
   */
  function EnabledConfiguration(s3: S3Client, bucket: string): (c: ClientConfiguration)
    ensures c.IsLargePayloadSupportEnabled()
    ensures c.largePayloadSupport.s3 == s3 && c.largePayloadSupport.s3BucketName == bucket
    ensures !c.alwaysThroughS3 && c.messageSizeThreshold == DefaultMessageSizeThreshold
  {
    ClientConfiguration(Enabled(s3, bucket), false, DefaultMessageSizeThreshold)
  }
}
