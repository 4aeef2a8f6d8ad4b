# OctoPrint-AirQuality: sensors manager and settings view model

This project is a Dafny model of the core of the OctoPrint-AirQuality plugin.
The plugin reads particulate-matter sensors attached to the printer host's serial ports and stores their readings.
The model proves properties of that core.

The server side is the `SensorsManager` class. Its model is the class `Sensors.SensorsManager`, and it covers:

- **Port enumeration.** The manager lists the attached serial ports and drops the port the printer uses. That is the live connection's port, or else the saved `serial.port` setting. It then builds the port dictionary, keyed by device path, and logs the key list joined by `", "`. When the dictionary is not empty, it also publishes it to the browser.
- **Device attributes.** Every stored device gets a reader bound to its model and port, but only when it has a port. It also gets an availability flag, which is true exactly when its port is a key of the port dictionary.
- **The read-thread controller.** This is a thread handle, an active flag, and start, stop and set-status operations. The set-status operation publishes `"true"` or `"false"`.
- **The read loop.** Each pass visits every device in list order:
  - a reading is stored through `insert_reading`;
  - a serial error calls stop, and the pass goes on;
  - a device without a reader, or any other error, is an exception the loop does not catch, so the thread ends.

The model is written in the source's own form:

- The manager's fields are class fields, and its methods change them in place under field-level `modifies` frames.
- The in-place removal of the printer's port is modelled as written. It uses `list.remove` inside a `for` over the same list, so the element after a removed one is skipped. `SerialPorts.RemovePrinterPort` is proved equal to a plain filter whenever device paths are unique.
- The loops are `for` and `while` loops with invariants, proved against specification functions. `ReadPass.Pass` summarises one read pass. `Text.Join` is the key list joined with the separator.
- Collaborators are not called. They are inputs, or they are recorded in ghost logs:
  - the operating system's port list, the printer connection and the saved setting are parameters;
  - what each read yields is a parameter;
  - storage inserts, plugin messages and port log lines are ghost logs.

The browser side is the `AirQualityViewModel` knockout view model in `static/js/airquality.js`. Its model is the module `AirQualityView`, and it covers:

- the port-availability tests;
- the list of ports offered when a device is edited;
- location-name lookup;
- the supported-model table;
- `mapDictionaryToArray`;
- the handler for the manager's plugin messages.

Python dictionaries and JavaScript objects whose keys are not array indices both keep insertion order. So both are modelled as `Dicts.Dict`, a key list plus a map.

In several places the code does not do what its docstrings and TODO comments suggest, and the model follows the code:

- The read loop visits every device, available or not.
- A serial error stops the loop controller instead of re-checking that device's availability and carrying on. The remaining devices of the pass are still read, but the `while` ends after that pass.
- A device without a reader, or an error other than a serial one, is not caught. The thread ends and the active flag stays set.
- Stopping publishes `"false"` even when no thread was running.
- A refresh always stops the read thread and starts a new one, because `update_serial_ports` always reports a change.
- A failure to enumerate ports is not handled.

## Model

| member | source | states |
|---|---|---|
| Text.JoinBoundaries | octoprint_airquality/SensorsManager.py:179-189 | The joined key list starts with the first key and ends with the last one. |
| Text.SplitJoin | octoprint_airquality/SensorsManager.py:179-189 | Splitting the joined key list at `", "` gives back exactly the keys, in order, whenever no key holds a comma. |
| Sensors.SensorsManager.DictionaryKeysToString | octoprint_airquality/SensorsManager.py:179-189 | The accumulator loop returns the keys in iteration order joined by `", "`, and `""` for an empty dictionary. |
| SerialPorts.WithoutDeviceMembers | octoprint_airquality/SensorsManager.py:135-138 | A port is kept exactly when it was attached and is not the printer's port, and the kept list is no longer than the attached one. |
| SerialPorts.WithoutDeviceUnique | octoprint_airquality/SensorsManager.py:135-138 | Dropping the printer's port keeps device paths unique. |
| SerialPorts.UnsetPrinterPortExcludesNothing | octoprint_airquality/SensorsManager.py:171-177 | With no printer port, or the `AUTO` setting, no attached port is dropped, unless a port is itself named `AUTO`. |
| SerialPorts.RemovePrinterPort | octoprint_airquality/SensorsManager.py:135-138 | Removing inside the iteration skips the port after a removed one. With unique device paths it still yields exactly the attached ports other than the printer's, in order. |
| Dicts.Put | octoprint_airquality/SensorsManager.py:144-156 | Assigning a key keeps the dictionary well formed: the key maps to the new value, every other entry is unchanged, and a new key goes to the end of the key order. |
| SerialPorts.PortTablePut | octoprint_airquality/SensorsManager.py:143-156 | Entering the next port under its device path extends the table by that port and keeps every earlier entry. |
| SerialPorts.BuildPortDetails | octoprint_airquality/SensorsManager.py:143-156 | The dictionary's keys are the kept ports' device paths in order, and each maps to its own port record. |
| SerialPorts.PortTableRecords | octoprint_airquality/SensorsManager.py:143-145 | Every entry's `device` equals its key. |
| Sensors.SensorsManager.IdentifyPrinterPort | octoprint_airquality/SensorsManager.py:164-177 | The printer port is the live connection's port when there is one, and otherwise the saved `serial.port` setting. |
| Sensors.SensorsManager.UpdateSerialPorts | octoprint_airquality/SensorsManager.py:126-162 | The ports are the attached ones minus the printer's, and the dictionary holds exactly them. One log line reports them. They are published only when some remain. The result is always true. |
| Sensors.SensorsManager.constructor | octoprint_airquality/SensorsManager.py:13-35 | Start-up enumerates the ports and loads the devices with current readers and availability. No thread is started and nothing is stored. |
| Sensors.SensorsManager.InitialiseSensors | octoprint_airquality/SensorsManager.py:37-40 | The loaded devices keep their stored fields and get a bound reader and current availability. |
| Sensors.SensorsManager.UpdateDevicesAdditionalAttributes | octoprint_airquality/SensorsManager.py:42-46 | Every device gets a bound reader and current availability, and nothing else about any device changes. |
| Sensors.SensorsManager.UpdateDeviceReader | octoprint_airquality/SensorsManager.py:48-55 | The reader is absent exactly when the port is absent. Otherwise it is bound to the device's model and port with interval 0. The device's other fields and the other devices are unchanged. |
| Sensors.SensorsManager.UpdateDeviceAvailability | octoprint_airquality/SensorsManager.py:57-64 | The device is available exactly when its port is present and is a key of the port dictionary. Only that flag of that device changes. |
| Devices.PortlessDeviceIsIdle | octoprint_airquality/SensorsManager.py:48-64 | A device without a port is never available and has no reader. |
| Devices.AvailableIffEnumerated | octoprint_airquality/SensorsManager.py:57-64 | Against a freshly built dictionary, a device is available exactly when its port is attached and is not the printer's. So availability depends only on the enumeration, and refreshing twice gives the same flags. |
| Sensors.SensorsManager.RefreshAvailableSerialPorts | octoprint_airquality/SensorsManager.py:66-76 | Refresh re-enumerates the ports, stops the thread (joining it unless the caller is that thread), and updates only every device's availability. It then starts a new thread, publishing `false` then `true`. |
| Sensors.SensorsManager.StartSensorsReadThread | octoprint_airquality/SensorsManager.py:100-110 | Start is a no-op when a thread exists. Otherwise it sets the flag, creates one new thread and publishes `true`, so two starts give one thread. |
| Sensors.SensorsManager.StopSensorsReadThread | octoprint_airquality/SensorsManager.py:112-117 | Stop always ends inactive with no thread and publishes `false`. It joins exactly when a thread exists and the caller is not that thread. |
| Sensors.SensorsManager.SetSensorsReadThreadActiveStatus | octoprint_airquality/SensorsManager.py:119-123 | The flag takes the given status, and its lower-case text is published. |
| PluginMessages.StatusText | octoprint_airquality/SensorsManager.py:123 | The published status text is never empty and parses back to the status it came from. |
| ReadPass.CrashIndexFirst | octoprint_airquality/SensorsManager.py:83-96 | The pass runs up to the first device whose visit raises an uncaught error, and no earlier device raises one. |
| ReadPass.Pass | octoprint_airquality/SensorsManager.py:83-96 | When a pass crashes, it crashes at a device that has no reader or whose read raised a non-serial error. |
| ReadPass.PassCrashes | octoprint_airquality/SensorsManager.py:83-96 | A pass crashes exactly when some visit crashes. A pass that does not crash makes every visit. |
| ReadPass.OneInsertionPerSuccess | octoprint_airquality/SensorsManager.py:92 | There is exactly one `insert_reading` call per successful read. |
| ReadPass.InsertionsInDeviceOrder | octoprint_airquality/SensorsManager.py:83-92 | The reading of the k-th device is stored in device-list order, with that device's id and location id. |
| ReadPass.InsertionsGrow | octoprint_airquality/SensorsManager.py:83-92 | Later visits only append calls after the calls already made. |
| ReadPass.SerialFailureSkipsOnlyItsDevice | octoprint_airquality/SensorsManager.py:93-96 | A serial error stores nothing for its device, and every later successful read in the same pass is still stored. |
| ReadPass.AllCompleteEach | octoprint_airquality/SensorsManager.py:81-97 | A run of passes completes exactly when none of its passes crashes. |
| ReadPass.AllStopsZero | octoprint_airquality/SensorsManager.py:81-97 | The passes made make no call to stop exactly when none of them hits a serial error. |
| ReadPass.NoStopsEach | octoprint_airquality/SensorsManager.py:81-97 | A run of passes calls stop exactly when one of its passes hits a serial error. |
| Sensors.SensorsManager.ReadDevice | octoprint_airquality/SensorsManager.py:85-96 | One visit stores a reading on success. A serial error stops the controller. No reader, or any other error, is reported as a crash and changes nothing. |
| Sensors.SensorsManager.SensorsReadPass | octoprint_airquality/SensorsManager.py:83-96 | One pass visits the devices in order and makes exactly the storage calls and stop calls of `ReadPass.Pass`. It crashes where that function says, and the flag is cleared exactly when some read hit a serial error. |
| Sensors.SensorsManager.SensorsReadThread | octoprint_airquality/SensorsManager.py:78-98 | Passes go on while the flag is set. The loop ends after the first pass with a serial error or at a crash. The stored readings are those of all passes made, and every completed pass before the last made no stop. One `false` is published per call to stop, and the calls are those of the passes made, the crashing one included. Without a call to stop the flag and the handle are as before, so a crash leaves the flag set; after one the loop ends inactive with no handle. |
| Sensors.UpdateSerialPortsAsWritten | octoprint_airquality/SensorsManager.py:126-162 | As written, enumeration returns exactly when every attached port is the printer's, and then it returns `True`; otherwise it raises. |
| Sensors.AsWrittenRaisesWheneverAPortRemains | octoprint_airquality/SensorsManager.py:158 | As written, enumeration raises `NameError` whenever some attached port is not the printer's. |
| AirQualityView.IndexOf | octoprint_airquality/static/js/airquality.js:66 | `indexOf` gives -1 exactly when the value is absent, and otherwise its first position. |
| AirQualityView.PortAvailable | octoprint_airquality/static/js/airquality.js:316-322 | A device's port is unavailable exactly when it is defined and not a listed port name, so a `null` port is unavailable. |
| AirQualityView.AirQualityViewModel.IsPortAvailable | octoprint_airquality/static/js/airquality.js:48-56 | The result is undefined exactly when no device is selected. It is false exactly when the selected port is defined and not listed. |
| AirQualityView.RemoveFirstMultiset | octoprint_airquality/static/js/airquality.js:66-69 | The splice removes one copy of the port when it is present, and nothing else. |
| AirQualityView.WithoutDevicePortsMultiset | octoprint_airquality/static/js/airquality.js:64-71 | The devices' loop removes one copy of each device's named port and nothing else. |
| AirQualityView.AirQualityViewModel.SerialPortsListEdit | octoprint_airquality/static/js/airquality.js:61-78 | The splice loop and the final push compute the edit list: the listed ports without the devices' ports, then the selected port when it is defined and missing. |
| AirQualityView.EditedListFrom | octoprint_airquality/static/js/airquality.js:61-78 | Every offered port is a listed port or the selected device's port. |
| AirQualityView.EditedListExcludesUsedPorts | octoprint_airquality/static/js/airquality.js:61-78 | With no port listed twice, no port used by a device is offered, except the selected device's own port. |
| AirQualityView.UsedPortGone | octoprint_airquality/static/js/airquality.js:64-71 | With no port listed twice, a device's named port is gone after the loop. |
| AirQualityView.SelectedPortOnce | octoprint_airquality/static/js/airquality.js:61-78 | With no port listed twice, a selected device's defined port is offered exactly once, whether the device is new, edited or unchanged; when the devices' loop left it out it is appended after the remaining ports. |
| AirQualityView.EditedListEndsWithSelectedPort | octoprint_airquality/static/js/airquality.js:72-77 | When the selected device is one of the devices and its port is defined, that port is offered exactly once, as the last entry. |
| AirQualityView.LocationName | octoprint_airquality/static/js/airquality.js:94-99 | The lookup is undefined exactly when no location has the id. |
| AirQualityView.LocationNameFirst | octoprint_airquality/static/js/airquality.js:94-99 | A found name is that of the first location with the id. |
| AirQualityView.SupportedDevicesWellFormed | octoprint_airquality/static/js/airquality.js:17-33 | The supported-device table lists fifteen distinct model keys, each with a name. |
| AirQualityView.GetPrettyModel | octoprint_airquality/static/js/airquality.js:90-92 | The pretty name is defined exactly for the fifteen listed models, and it is never empty. |
| AirQualityView.MapDictionaryToArray | octoprint_airquality/static/js/airquality.js:526-534 | There is one `{key, value}` entry per own key, in key order, each with the key's value. The length equals the number of keys. |
| AirQualityView.AirQualityViewModel.constructor | octoprint_airquality/static/js/airquality.js:17-80 | The view model starts with empty lists and a stopped indicator (lines 17-45). `models` (line 80) holds the fifteen supported models in table order, each with its pretty name. |
| PluginMessages.ParseStatusInverse | octoprint_airquality/static/js/airquality.js:138 | `JSON.parse` gives a status exactly for the texts `true` and `false`, and the status's own text. |
| AirQualityView.StatusUpdate | octoprint_airquality/static/js/airquality.js:136-139 | A status is acted on only when the text is present, non-empty and parses to a boolean, and then it is the parsed value. |
| AirQualityView.AirQualityViewModel.OnDataUpdaterPluginMessage | octoprint_airquality/static/js/airquality.js:126-140 | Messages of other plugins change nothing. A port dictionary replaces the stored one, and the port list becomes exactly its keys. A status text sets the indicator to its parsed value. |

## Left out

- Threads are not modelled as concurrent. The read loop is the method `SensorsReadThread`, run as the thread whose identity it is given. Starting a thread only records its identity, `join` is a boolean result, and `time.sleep(5)` is a no-op.
- Sensors.SensorsManager.SensorsReadThread: the number of passes is bounded by the list of read outcomes it is given. A loop that never meets a serial error is therefore modelled only up to that bound.
- Sensors.SensorsManager.SensorsReadPass: what a read yields (a reading, a serial error or another error) is a parameter. The `SensorReader` driver, the plantower decoding and the `with` protocol are not modelled.
- Sensors.SensorsManager.ReadDevice: an error from `insert_reading` is one of the "other" errors that end the thread. Storage itself, `DatabaseManager.py`, is not part of this model. `get_devices` is the constructor's `stored` parameter, and `insert_reading` calls are recorded in a ghost log.
- Sensors.SensorsManager.UpdateSerialPorts: `list_ports.comports()` is a parameter, and its ports are assumed to have unique device paths. Only the port-list log line is modelled. The other log lines and `print` are left out.
- Sensors.SensorsManager.UpdateSerialPorts: it follows the evident intent of line 158 and calls the method. The as-written `NameError` is under Findings.
- Sensors.SensorsManager.UpdateSerialPorts: the port dictionary's value is the port record itself, standing for the eleven-field dictionary built from it.
- A crash of the read thread leaves the active flag and the thread handle as they were. That is what the code does, and nothing models the thread's death beyond `crashedAt`.
- The plugin's API commands and event handlers in `__init__.py` are not part of this model. The `Connected` event is the external trigger that calls `refresh_available_serial_ports`.
- The browser's ajax calls, alerts, modals and knockout's dependency tracking are left out. A computed observable is modelled as a function or method of the fields it reads.
- AirQualityView.LocationName: ids are integers, and the loose `==` of the lookup is modelled as equality. A string id equal to a number, such as `"3"`, is not modelled.
- AirQualityView.GetPrettyModel: the keys inherited from `Object.prototype`, such as `toString`, are not modelled. They make `supportedDevices[model]` defined for more than the fifteen models.
- AirQualityView.AirQualityViewModel.OnDataUpdaterPluginMessage: a status text that `JSON.parse` rejects throws in the browser, and the model leaves the indicator unchanged instead. JSON values other than `true` and `false` are not modelled. The manager sends only those two.
- AirQualityView.MapDictionaryToArray: only own keys are modelled, so the `hasOwnProperty` test always holds.

## Findings

| source | as written | input that shows it | evidently intended | confidence | as-written member | corrected member |
|---|---|---|---|---|---|---|
| octoprint_airquality/SensorsManager.py:158 | The log call names `dictionary_keys_to_string` without `self.`. Only the method of that name exists, so the call raises `NameError`. | Any attached port other than the printer's, e.g. ports `/dev/ttyUSB0` and `/dev/ttyACM0` with printer port `/dev/ttyACM0`. | Call `self.dictionary_keys_to_string`, log the joined keys, and publish the dictionary. | not executed | Sensors.AsWrittenRaisesWheneverAPortRemains | Sensors.SensorsManager.UpdateSerialPorts |
