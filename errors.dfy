/** The errors the permission engine raises, named after the message keys of the source. */
module Errors {

  datatype Error =
    | PermissionNotFound(permission: string)        // 'permission_not_found'
    | PermissionAlreadyExist(permission: string)    // 'permission_already_exist'
    | PermissionRequireAccount(permission: string)  // 'permission_require_account'
    | PermissionProtected(permission: string)       // 'permission_protected'
    | PermissionCannotRemoveMain                    // 'permission_cannot_remove_main'
    | GroupUnknown(group: string)                   // 'group_unknown'
    | PermissionCreationFailed(permission: string)  // 'permission_creation_failed'
    | PermissionUpdateFailed(permission: string)    // 'permission_update_failed'
    | PermissionDeletionFailed(permission: string)  // 'permission_deletion_failed'
    /** KeyError: a url is completed for an app that has no domain/path settings. */
    | AppSettingMissing
    /** KeyError: a permission allows a group the group directory does not know. */
    | GroupMissing(group: string)
    /** TypeError: the protected flag of an absent permission is looked up. */
    | MissingPermissionRecord(permission: string)
}
