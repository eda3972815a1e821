/** The preference keys and default values that `CameraSettings` declares. */
module CameraKeys {

  const KEY_VERSION := "pref_version_key"
  const KEY_LOCAL_VERSION := "pref_local_version_key"
  /** `RecordLocationPreference.KEY`; that class is not part of this model. */
  const KEY_RECORD_LOCATION := "pref_camera_recordlocation_key"
  const KEY_VIDEO_QUALITY := "pref_video_quality_key"
  const KEY_VIDEO_TIME_LAPSE_FRAME_INTERVAL := "pref_video_time_lapse_frame_interval_key"
  const KEY_PICTURE_SIZE := "pref_camera_picturesize_key"
  const KEY_JPEG_QUALITY := "pref_camera_jpegquality_key"
  const KEY_FOCUS_MODE := "pref_camera_focusmode_key"
  const KEY_FLASH_MODE := "pref_camera_flashmode_key"
  const KEY_VIDEOCAMERA_FLASH_MODE := "pref_camera_video_flashmode_key"
  const KEY_WHITE_BALANCE := "pref_camera_whitebalance_key"
  const KEY_SCENE_MODE := "pref_camera_scenemode_key"
  const KEY_EXPOSURE := "pref_camera_exposure_key"
  const KEY_VIDEO_EFFECT := "pref_video_effect_key"
  const KEY_CAMERA_ID := "pref_camera_id_key"
  const KEY_ISO_VALUE := "pref_camera_isovalue_key"
  const KEY_EFFECT := "pref_camera_effect_key"
  const KEY_BRIGHTNESS := "pref_camera_brightness_key"
  const KEY_METERING := "pref_camera_metering_key"
  const KEY_ANTIBANDING := "pref_camera_antibanding_key"
  const KEY_CONTRAST := "pref_camera_contrast_key"
  const KEY_SATURATION := "pref_camera_saturation_key"
  const KEY_SHARPNESS := "pref_camera_sharpness_key"
  const KEY_HUE := "pref_camera_hue_key"
  const KEY_WDR := "pref_camera_wdr_key"
  const KEY_JPEG_QUAL := "pref_camera_jpeg_qual_key"
  const KEY_AE_LOCK := "pref_camera_ae_lock_key"
  const KEY_AWB_LOCK := "pref_camera_awb_lock_key"

  const EXPOSURE_DEFAULT_VALUE := "0"
  const BRIGHTNESS_DEFAULT_VALUE := "0"
  const SATURATION_DEFAULT_VALUE := "0"
  const SHARPNESS_DEFAULT_VALUE := "0"
  const HUE_DEFAULT_VALUE := "0"
  const WDR_DEFAULT_VALUE := "0"
  const JPEG_QUAL_DEFAULT_VALUE := "100"
  const AE_LOCK_DEFAULT_VALUE := "0"
  const AWB_LOCK_DEFAULT_VALUE := "0"
}
