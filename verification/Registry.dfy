/** The sources and crawl targets that jobs and documents refer to. */
module Registry {
  type SourceId = nat
  type TargetId = nat
}
