/**
 Declarations several services share.
 */
module Wrappers {

  datatype Option<+T> = None | Some(value: T)

  /** The two write tools that only run after a confirmation. */
  const QUOTA_TOOLS: set<string> := {"adjust_group_quota", "adjust_storage_usage_quota"}
}
